/** The file-backed job store of server/src/services/testOutputService.ts.
    The four directories under `test_output/` become four maps from file
    name (`<videoId>.json`) to the file: its parsed record (or the reason it
    cannot be read or parsed) and its change time. Each operation is a pure
    function from the old store to the new store and the completion of the
    call; the class `TestOutputService` performs the same operations step by
    step, one file write or delete at a time. */
module OutputStore {
  import opened Common
  import opened TestOutput
  import opened DirOrder
  import Video
  import StatusTransitions

  datatype Partition = QueueDir | ProcessingDir | CompletedDir | FailedDir

  /** The directories in the order `ensureNotExists` visits them. */
  const AllPartitions: seq<Partition> := [QueueDir, ProcessingDir, CompletedDir, FailedDir]

  /** The state name the service uses for a directory. */
  function DirName(p: Partition): string
  {
    match p
    case QueueDir => "queue"
    case ProcessingDir => "processing"
    case CompletedDir => "completed"
    case FailedDir => "failed"
  }

  function FileName(videoId: string): string
  {
    videoId + ".json"
  }

  /** `path.join(TEST_OUTPUT_CONFIG.PATHS[dir], `${videoId}.json`)`, relative
      to the working directory. */
  function FilePath(p: Partition, videoId: string): string
  {
    "test_output/" + DirName(p) + "/" + FileName(videoId)
  }

  /** What `JSON.parse(await fs.readFile(path))` gives: a record, or the
      message of the read or parse error. */
  datatype Content<T> = Parsed(record: T) | Unreadable(reason: string)

  datatype Entry<T> = Entry(content: Content<T>, ctime: Time)

  datatype Store = Store(
    queue: map<string, Entry<QueuedOutput>>,
    processing: map<string, Entry<ProcessingOutput>>,
    completed: map<string, Entry<CompletedOutput>>,
    failed: map<string, Entry<FailedOutput>>)

  function Names(s: Store, p: Partition): set<string>
  {
    match p
    case QueueDir => s.queue.Keys
    case ProcessingDir => s.processing.Keys
    case CompletedDir => s.completed.Keys
    case FailedDir => s.failed.Keys
  }

  /** `fs.access(path)` succeeds. */
  predicate Holds(s: Store, p: Partition, name: string)
  {
    name in Names(s, p)
  }

  /** `fs.stat(path).ctimeMs` */
  function CTime(s: Store, p: Partition, name: string): Time
    requires Holds(s, p, name)
  {
    match p
    case QueueDir => s.queue[name].ctime
    case ProcessingDir => s.processing[name].ctime
    case CompletedDir => s.completed[name].ctime
    case FailedDir => s.failed[name].ctime
  }

  /** `fs.readdir(dir)` */
  function ListDir(s: Store, p: Partition): seq<string>
  {
    SortedNames(Names(s, p))
  }

  /** Some directory holds a file of this name. */
  predicate Present(s: Store, name: string)
  {
    name in s.queue || name in s.processing || name in s.completed || name in s.failed
  }

  /** No file name sits in two directories. */
  predicate Apart(s: Store)
  {
    && s.queue.Keys !! s.processing.Keys && s.queue.Keys !! s.completed.Keys
    && s.queue.Keys !! s.failed.Keys && s.processing.Keys !! s.completed.Keys
    && s.processing.Keys !! s.failed.Keys && s.completed.Keys !! s.failed.Keys
  }

  // ---------------------------------------------------------------------------
  // Errors

  /** `new TestOutputError(message, code)` */
  function TestOutputError(message: string, code: string): Failure
  {
    Failure("TestOutputError", message, Some(code))
  }

  /** The `catch` of the wrapping operations: the context, then the caught
      error's message, under the operation's code. */
  function Wrapped(context: string, caught: Failure, code: string): Failure
  {
    TestOutputError(context + caught.message, code)
  }

  const AddContext := "Failed to add video to queue: "
  const ProcessingContext := "Failed to move video to processing: "
  const QueueMoveContext := "Failed to move video to queue: "
  const ProgressContext := "Failed to update progress: "

  // ---------------------------------------------------------------------------
  // Reading, validating, checking

  /** `readFile(path)`: the parsed record, "File not found: <path>" when
      there is no such file, "Error reading file: <reason>" otherwise. */
  function ReadFile<T>(m: map<string, Entry<T>>, path: string, name: string): Result<T>
  {
    if name !in m then Err(PlainError("File not found: " + path))
    else
      match m[name].content
      case Parsed(record) => Ok(record)
      case Unreadable(reason) => Err(PlainError("Error reading file: " + reason))
  }

  /** The argument of `addToQueue`, typed `QueuedOutput` but checked at run
      time: any of its three text fields may be missing and its status may
      be any text. */
  datatype QueueRequest = QueueRequest(videoId: Option<string>, url: Option<string>,
                                       notifyEmail: Option<string>, status: string, queuedAt: Time)

  /** `validateQueueData(data)`: the first failing check throws. */
  function ValidateQueueData(d: QueueRequest): Outcome
  {
    if !(d.videoId.Some? && d.videoId.value != "" && AllDigits(d.videoId.value)) then
      Threw(PlainError("Invalid videoId format"))
    else if !(d.url.Some? && StartsWith(d.url.value, "https://")) then
      Threw(PlainError("Invalid URL format"))
    else if !(d.notifyEmail.Some? && '@' in d.notifyEmail.value) then
      Threw(PlainError("Invalid email format"))
    else if d.status != "queued" then
      Threw(PlainError("Invalid status for queue: " + d.status))
    else Done
  }

  /** `ensureNotExists(videoId)`: fails naming the first directory, in the
      order queue, processing, completed, failed, that holds the file. */
  function ExistenceCheck(s: Store, videoId: string): Outcome
  {
    var n := FileName(videoId);
    if n in s.queue then Threw(PlainError("Video already exists in queue"))
    else if n in s.processing then Threw(PlainError("Video already exists in processing"))
    else if n in s.completed then Threw(PlainError("Video already exists in completed"))
    else if n in s.failed then Threw(PlainError("Video already exists in failed"))
    else Done
  }

  /** `ensureNotInState(videoId, state)` */
  function StateCheck(s: Store, videoId: string, p: Partition): Outcome
  {
    if Holds(s, p, FileName(videoId)) then Threw(PlainError("Video already in " + DirName(p) + " state"))
    else Done
  }

  /** The directory at position `i` of the visiting order is the first to
      hold the file: the check names it. */
  lemma FirstHolderNamed(s: Store, videoId: string, i: nat)
    requires i < |AllPartitions|
    requires forall j :: 0 <= j < i ==> !Holds(s, AllPartitions[j], FileName(videoId))
    requires Holds(s, AllPartitions[i], FileName(videoId))
    ensures ExistenceCheck(s, videoId) == Threw(PlainError("Video already exists in " + DirName(AllPartitions[i])))
  {
    if i > 0 {
      assert !Holds(s, AllPartitions[0], FileName(videoId));
    }
    if i > 1 {
      assert !Holds(s, AllPartitions[1], FileName(videoId));
    }
    if i > 2 {
      assert !Holds(s, AllPartitions[2], FileName(videoId));
    }
  }

  // ---------------------------------------------------------------------------
  // The records each operation writes

  /** `{...queueData, status: 'processing', startedAt, progress}` */
  function Claimed(q: QueuedOutput, startedAt: Time, progress: int): ProcessingOutput
  {
    ProcessingOutput(q.videoId, q.url, q.notifyEmail, q.queuedAt, startedAt, progress, None, None, None)
  }

  /** The queued record `moveToQueue` builds from a processing record. */
  function Requeued(p: ProcessingOutput, queuedAt: Time): QueuedOutput
  {
    QueuedOutput(p.videoId, p.url, p.notifyEmail, queuedAt)
  }

  /** `ProgressUpdate`, declared inside the class body in the source. */
  datatype ProgressUpdate = ProgressUpdate(progress: int, currentStep: string, message: string)

  /** `{...processingData, progress, currentStep, statusMessage, updatedAt}` */
  function WithProgress(p: ProcessingOutput, u: ProgressUpdate, updatedAt: Time): ProcessingOutput
  {
    p.(progress := u.progress, currentStep := Some(u.currentStep),
       statusMessage := Some(u.message), updatedAt := Some(updatedAt))
  }

  // ---------------------------------------------------------------------------
  // The operations as functions of the store

  datatype StoreStep = StoreStep(store: Store, outcome: Outcome)

  /** `addToQueue(data)` at time `now`. */
  function AfterAddToQueue(s: Store, d: QueueRequest, now: Time): StoreStep
  {
    match ValidateQueueData(d)
    case Threw(f) => StoreStep(s, Threw(Wrapped(AddContext, f, "QUEUE_ERROR")))
    case Done =>
      match ExistenceCheck(s, d.videoId.value)
      case Threw(f) => StoreStep(s, Threw(Wrapped(AddContext, f, "QUEUE_ERROR")))
      case Done =>
        var rec := QueuedOutput(d.videoId.value, d.url.value, d.notifyEmail, d.queuedAt);
        StoreStep(s.(queue := s.queue[FileName(d.videoId.value) := Entry(Parsed(rec), now)]), Done)
  }

  /** `moveToProcessing(videoId, progress)` at time `now`. */
  function AfterMoveToProcessing(s: Store, videoId: string, progress: int, now: Time): StoreStep
  {
    var n := FileName(videoId);
    match ReadFile(s.queue, FilePath(QueueDir, videoId), n)
    case Err(f) => StoreStep(s, Threw(Wrapped(ProcessingContext, f, "PROCESSING_ERROR")))
    case Ok(q) =>
      match StateCheck(s, videoId, ProcessingDir)
      case Threw(f) => StoreStep(s, Threw(Wrapped(ProcessingContext, f, "PROCESSING_ERROR")))
      case Done =>
        var written := s.(processing := s.processing[n := Entry(Parsed(Claimed(q, now, progress)), now)]);
        StoreStep(written.(queue := written.queue - {n}), Done)
  }

  /** `markAsCompleted(videoId, result)` at time `now`; `writeFault` is the
      error the write of the completed file raises, if it fails. */
  function AfterMarkAsCompleted(s: Store, videoId: string, result: AnalysisResult, now: Time,
                                writeFault: Option<Failure>): StoreStep
  {
    var n := FileName(videoId);
    match ReadFile(s.processing, FilePath(ProcessingDir, videoId), n)
    case Err(f) => StoreStep(s, Threw(f))
    case Ok(p) =>
      if writeFault.Some? then StoreStep(s, Threw(writeFault.value))
      else
        var written := s.(completed := s.completed[n := Entry(Parsed(CompletedOutput(p, now, result)), now)]);
        StoreStep(written.(processing := written.processing - {n}), Done)
  }

  /** `markAsFailed(videoId, error)` at time `now`. */
  function AfterMarkAsFailed(s: Store, videoId: string, error: ErrorInfo, now: Time): StoreStep
  {
    var n := FileName(videoId);
    match ReadFile(s.processing, FilePath(ProcessingDir, videoId), n)
    case Err(f) => StoreStep(s, Threw(f))
    case Ok(p) =>
      var written := s.(failed := s.failed[n := Entry(Parsed(FailedOutput(p, now, error)), now)]);
      StoreStep(written.(processing := written.processing - {n}), Done)
  }

  /** `moveToQueue(videoId)` at time `now`. */
  function AfterMoveToQueue(s: Store, videoId: string, now: Time): StoreStep
  {
    var n := FileName(videoId);
    match ReadFile(s.processing, FilePath(ProcessingDir, videoId), n)
    case Err(f) => StoreStep(s, Threw(Wrapped(QueueMoveContext, f, "QUEUE_MOVE_ERROR")))
    case Ok(p) =>
      var written := s.(queue := s.queue[n := Entry(Parsed(Requeued(p, now)), now)]);
      StoreStep(written.(processing := written.processing - {n}), Done)
  }

  /** `updateProgress(videoId, update)` at time `now`; `writeFault` is the
      error the rewrite raises, if it fails. */
  function AfterUpdateProgress(s: Store, videoId: string, u: ProgressUpdate, now: Time,
                               writeFault: Option<Failure>): StoreStep
  {
    var n := FileName(videoId);
    match ReadFile(s.processing, FilePath(ProcessingDir, videoId), n)
    case Err(f) => StoreStep(s, Threw(Wrapped(ProgressContext, f, "PROGRESS_UPDATE_ERROR")))
    case Ok(p) =>
      if writeFault.Some? then StoreStep(s, Threw(Wrapped(ProgressContext, writeFault.value, "PROGRESS_UPDATE_ERROR")))
      else StoreStep(s.(processing := s.processing[n := Entry(Parsed(WithProgress(p, u, now)), now)]), Done)
  }

  // ---------------------------------------------------------------------------
  // What the operations promise

  /** The read succeeds exactly on a parsed file of that name, and its two
      errors say which case failed. */
  lemma ReadFileCases<T>(m: map<string, Entry<T>>, path: string, name: string)
    ensures ReadFile(m, path, name).Ok? <==> name in m && m[name].content.Parsed?
    ensures ReadFile(m, path, name).Ok? ==> ReadFile(m, path, name).value == m[name].content.record
    ensures name !in m ==> ReadFile(m, path, name) == Err(PlainError("File not found: " + path))
    ensures name in m && m[name].content.Unreadable? ==>
      ReadFile(m, path, name).failure.message == "Error reading file: " + m[name].content.reason
  {
  }

  /** `validateQueueData` accepts exactly a non-empty all-digit id, an
      `https://` url, an email with `@` (an absent email is refused) and the
      status "queued"; a refusal carries the message of the first check that
      fails, in the order id, url, email, status. */
  lemma QueueValidation(d: QueueRequest)
    ensures ValidateQueueData(d).Done? <==>
      && d.videoId.Some? && d.videoId.value != "" && AllDigits(d.videoId.value)
      && d.url.Some? && StartsWith(d.url.value, "https://")
      && d.notifyEmail.Some? && '@' in d.notifyEmail.value
      && d.status == "queued"
    ensures var idOk := d.videoId.Some? && d.videoId.value != "" && AllDigits(d.videoId.value);
      var urlOk := d.url.Some? && StartsWith(d.url.value, "https://");
      var emailOk := d.notifyEmail.Some? && '@' in d.notifyEmail.value;
      && (!idOk ==> ValidateQueueData(d) == Threw(PlainError("Invalid videoId format")))
      && (idOk && !urlOk ==> ValidateQueueData(d) == Threw(PlainError("Invalid URL format")))
      && (idOk && urlOk && !emailOk ==> ValidateQueueData(d) == Threw(PlainError("Invalid email format")))
      && (idOk && urlOk && emailOk && d.status != "queued" ==>
            ValidateQueueData(d) == Threw(PlainError("Invalid status for queue: " + d.status)))
    ensures d.videoId.None? ==> ValidateQueueData(d) == Threw(PlainError("Invalid videoId format"))
    ensures d.notifyEmail.None? && ValidateQueueData(d) != Threw(PlainError("Invalid videoId format"))
            && ValidateQueueData(d) != Threw(PlainError("Invalid URL format")) ==>
            ValidateQueueData(d) == Threw(PlainError("Invalid email format"))
    ensures ValidateQueueData(d).Threw? ==>
      (ValidateQueueData(d).failure.message in
         {"Invalid videoId format", "Invalid URL format", "Invalid email format", "Invalid status for queue: " + d.status})
  {
  }

  /** `addToQueue` succeeds iff the data is valid and no directory holds the
      id; then only the queue gains the record, otherwise nothing changes and
      the error is a `TestOutputError` with code QUEUE_ERROR. */
  lemma AddToQueueSpec(s: Store, d: QueueRequest, now: Time)
    ensures var r := AfterAddToQueue(s, d, now);
      && (r.outcome.Done? <==> ValidateQueueData(d).Done? && !Present(s, FileName(d.videoId.value)))
      && (r.outcome.Done? ==>
            r.store == s.(queue := s.queue[FileName(d.videoId.value) :=
                          Entry(Parsed(QueuedOutput(d.videoId.value, d.url.value, d.notifyEmail, d.queuedAt)), now)]))
      && (r.outcome.Threw? ==>
            && r.store == s
            && r.outcome.failure.name == "TestOutputError"
            && r.outcome.failure.code == Some("QUEUE_ERROR")
            && StartsWith(r.outcome.failure.message, AddContext))
  {
    var v := ValidateQueueData(d);
    if v.Threw? {
      assert (AddContext + v.failure.message)[..|AddContext|] == AddContext;
    } else {
      ExistenceCheckSpec(s, d.videoId.value);
      var e := ExistenceCheck(s, d.videoId.value);
      if e.Threw? {
        assert (AddContext + e.failure.message)[..|AddContext|] == AddContext;
      }
    }
  }

  /** The existence check names the first directory holding the id and
      passes iff none does. */
  lemma ExistenceCheckSpec(s: Store, videoId: string)
    ensures ExistenceCheck(s, videoId).Done? <==> !Present(s, FileName(videoId))
    ensures FileName(videoId) in s.queue ==>
      ExistenceCheck(s, videoId) == Threw(PlainError("Video already exists in queue"))
    ensures FileName(videoId) !in s.queue && FileName(videoId) in s.processing ==>
      ExistenceCheck(s, videoId) == Threw(PlainError("Video already exists in processing"))
  {
  }

  /** `moveToProcessing` succeeds iff the queue holds a readable record for
      the id and processing does not hold the id. The id then leaves the
      queue and enters processing with every queued field, `startedAt` =
      `now` and the given progress; otherwise nothing changes and the error
      has code PROCESSING_ERROR. */
  lemma MoveToProcessingSpec(s: Store, videoId: string, progress: int, now: Time)
    ensures var r := AfterMoveToProcessing(s, videoId, progress, now); var n := FileName(videoId);
      && (r.outcome.Done? <==> n in s.queue && s.queue[n].content.Parsed? && n !in s.processing)
      && (r.outcome.Done? ==>
            var q := s.queue[n].content.record;
            && n !in r.store.queue && n in r.store.processing
            && r.store.queue == s.queue - {n}
            && r.store.completed == s.completed && r.store.failed == s.failed
            && r.store.processing == s.processing[n := r.store.processing[n]]
            && r.store.processing[n] == Entry(Parsed(r.store.processing[n].content.record), now)
            && var p := r.store.processing[n].content.record;
            && p.videoId == q.videoId && p.url == q.url && p.notifyEmail == q.notifyEmail
            && p.queuedAt == q.queuedAt && p.startedAt == now && p.progress == progress
            && p.currentStep.None? && p.statusMessage.None? && p.updatedAt.None?)
      && (r.outcome.Threw? ==>
            r.store == s && r.outcome.failure.name == "TestOutputError"
            && r.outcome.failure.code == Some("PROCESSING_ERROR"))
  {
  }

  /** `markAsCompleted` reads processing only: with a readable processing
      record it moves the id to completed, keeping the whole record and
      adding `completedAt` and `result`; its errors are the read error or
      the write error, unwrapped. */
  lemma MarkAsCompletedSpec(s: Store, videoId: string, result: AnalysisResult, now: Time, writeFault: Option<Failure>)
    ensures var r := AfterMarkAsCompleted(s, videoId, result, now, writeFault); var n := FileName(videoId);
      && (r.outcome.Done? <==> n in s.processing && s.processing[n].content.Parsed? && writeFault.None?)
      && (r.outcome.Done? ==>
            && r.store.processing == s.processing - {n}
            && r.store.queue == s.queue && r.store.failed == s.failed
            && r.store.completed == s.completed[n :=
                 Entry(Parsed(CompletedOutput(s.processing[n].content.record, now, result)), now)])
      && (r.outcome.Threw? ==> r.store == s)
      && (r.outcome.Threw? && writeFault.None? ==>
            r.outcome.failure == ReadFile(s.processing, FilePath(ProcessingDir, videoId), n).failure
            && r.outcome.failure.name == "Error" && r.outcome.failure.code.None?)
  {
  }

  /** `markAsFailed` likewise moves a readable processing record to failed,
      keeping it whole (with its original `queuedAt`) and adding `failedAt`
      and `error`; its error is the unwrapped read error. */
  lemma MarkAsFailedSpec(s: Store, videoId: string, error: ErrorInfo, now: Time)
    ensures var r := AfterMarkAsFailed(s, videoId, error, now); var n := FileName(videoId);
      && (r.outcome.Done? <==> n in s.processing && s.processing[n].content.Parsed?)
      && (r.outcome.Done? ==>
            var rec := FailedOutput(s.processing[n].content.record, now, error);
            && rec.run.queuedAt == s.processing[n].content.record.queuedAt
            && r.store.processing == s.processing - {n}
            && r.store.queue == s.queue && r.store.completed == s.completed
            && r.store.failed == s.failed[n := Entry(Parsed(rec), now)])
      && (r.outcome.Threw? ==>
            r.store == s && r.outcome.failure.name == "Error" && r.outcome.failure.code.None?)
  {
  }

  /** `moveToQueue` reads processing only and writes a fresh queued record of
      just the id, url, email and a new `queuedAt`; it does not look at what
      the queue already holds. Errors have code QUEUE_MOVE_ERROR. */
  lemma MoveToQueueSpec(s: Store, videoId: string, now: Time)
    ensures var r := AfterMoveToQueue(s, videoId, now); var n := FileName(videoId);
      && (r.outcome.Done? <==> n in s.processing && s.processing[n].content.Parsed?)
      && (r.outcome.Done? ==>
            var p := s.processing[n].content.record;
            && r.store.processing == s.processing - {n}
            && r.store.completed == s.completed && r.store.failed == s.failed
            && r.store.queue == s.queue[n := Entry(Parsed(QueuedOutput(p.videoId, p.url, p.notifyEmail, now)), now)])
      && (r.outcome.Threw? ==>
            r.store == s && r.outcome.failure.name == "TestOutputError"
            && r.outcome.failure.code == Some("QUEUE_MOVE_ERROR"))
  {
  }

  /** `updateProgress` rewrites a readable processing record in place: the
      four progress fields change, every other field and every other file
      stays; failures have code PROGRESS_UPDATE_ERROR and change nothing. */
  lemma UpdateProgressSpec(s: Store, videoId: string, u: ProgressUpdate, now: Time, writeFault: Option<Failure>)
    ensures var r := AfterUpdateProgress(s, videoId, u, now, writeFault); var n := FileName(videoId);
      && (r.outcome.Done? <==> n in s.processing && s.processing[n].content.Parsed? && writeFault.None?)
      && (r.outcome.Done? ==>
            var old_ := s.processing[n].content.record;
            && r.store.queue == s.queue && r.store.completed == s.completed && r.store.failed == s.failed
            && r.store.processing.Keys == s.processing.Keys
            && (forall m :: m in s.processing && m != n ==> r.store.processing[m] == s.processing[m])
            && r.store.processing[n].ctime == now
            && var p := r.store.processing[n].content.record;
            && p.progress == u.progress && p.currentStep == Some(u.currentStep)
            && p.statusMessage == Some(u.message) && p.updatedAt == Some(now)
            && p.videoId == old_.videoId && p.url == old_.url && p.notifyEmail == old_.notifyEmail
            && p.queuedAt == old_.queuedAt && p.startedAt == old_.startedAt)
      && (r.outcome.Threw? ==>
            r.store == s && r.outcome.failure.code == Some("PROGRESS_UPDATE_ERROR"))
  {
  }

  /** No operation ever puts a file name into a second directory: the store
      keeps every job in at most one partition. */
  lemma OperationsKeepPartitionsApart(s: Store, d: QueueRequest, videoId: string, progress: int,
                                      result: AnalysisResult, error: ErrorInfo, u: ProgressUpdate,
                                      now: Time, fault: Option<Failure>)
    requires Apart(s)
    ensures Apart(AfterAddToQueue(s, d, now).store)
    ensures Apart(AfterMoveToProcessing(s, videoId, progress, now).store)
    ensures Apart(AfterMarkAsCompleted(s, videoId, result, now, fault).store)
    ensures Apart(AfterMarkAsFailed(s, videoId, error, now).store)
    ensures Apart(AfterMoveToQueue(s, videoId, now).store)
    ensures Apart(AfterUpdateProgress(s, videoId, u, now, fault).store)
  {
    AddKeepsApart(s, d, now);
    ClaimKeepsApart(s, videoId, progress, now);
    FinishKeepsApart(s, videoId, result, error, now, fault);
    ReturnKeepsApart(s, videoId, u, now, fault);
  }

  lemma FinishKeepsApart(s: Store, videoId: string, result: AnalysisResult, error: ErrorInfo,
                         now: Time, fault: Option<Failure>)
    requires Apart(s)
    ensures Apart(AfterMarkAsCompleted(s, videoId, result, now, fault).store)
    ensures Apart(AfterMarkAsFailed(s, videoId, error, now).store)
  {
    var n := FileName(videoId);
    if n in s.processing {
      assert n !in s.queue && n !in s.completed && n !in s.failed;
    }
  }

  lemma ReturnKeepsApart(s: Store, videoId: string, u: ProgressUpdate, now: Time, fault: Option<Failure>)
    requires Apart(s)
    ensures Apart(AfterMoveToQueue(s, videoId, now).store)
    ensures Apart(AfterUpdateProgress(s, videoId, u, now, fault).store)
  {
    var n := FileName(videoId);
    if n in s.processing {
      assert n !in s.queue && n !in s.completed && n !in s.failed;
    }
  }

  lemma AddKeepsApart(s: Store, d: QueueRequest, now: Time)
    requires Apart(s)
    ensures Apart(AfterAddToQueue(s, d, now).store)
  {
    if ValidateQueueData(d).Done? {
      ExistenceCheckSpec(s, d.videoId.value);
    }
  }

  lemma ClaimKeepsApart(s: Store, videoId: string, progress: int, now: Time)
    requires Apart(s)
    ensures Apart(AfterMoveToProcessing(s, videoId, progress, now).store)
  {
    var n := FileName(videoId);
    if n in s.queue {
      assert n !in s.completed && n !in s.failed;
    }
  }

  /** The video status a directory stands for. */
  function PartitionStatus(p: Partition): Video.VideoStatus
  {
    match p
    case QueueDir => Video.Queued
    case ProcessingDir => Video.Processing
    case CompletedDir => Video.Completed
    case FailedDir => Video.Failed
  }

  /** The store never consults the transition table, yet its moves
      queue -> processing, processing -> completed and processing -> failed
      are edges of the table; the recovery move processing -> queued is not. */
  lemma StoreMovesAgainstTable(s: Store, videoId: string, progress: int, result: AnalysisResult,
                               error: ErrorInfo, now: Time)
    ensures var n := FileName(videoId); var r := AfterMoveToProcessing(s, videoId, progress, now);
      r.outcome.Done? ==>
        (Holds(s, QueueDir, n) && Holds(r.store, ProcessingDir, n) && !Holds(r.store, QueueDir, n)
         && StatusTransitions.ValidateStatusTransition(PartitionStatus(QueueDir), PartitionStatus(ProcessingDir)))
    ensures var n := FileName(videoId); var r := AfterMarkAsCompleted(s, videoId, result, now, None);
      r.outcome.Done? ==>
        (Holds(s, ProcessingDir, n) && Holds(r.store, CompletedDir, n) && !Holds(r.store, ProcessingDir, n)
         && StatusTransitions.ValidateStatusTransition(PartitionStatus(ProcessingDir), PartitionStatus(CompletedDir)))
    ensures var n := FileName(videoId); var r := AfterMarkAsFailed(s, videoId, error, now);
      r.outcome.Done? ==>
        (Holds(s, ProcessingDir, n) && Holds(r.store, FailedDir, n) && !Holds(r.store, ProcessingDir, n)
         && StatusTransitions.ValidateStatusTransition(PartitionStatus(ProcessingDir), PartitionStatus(FailedDir)))
    ensures var n := FileName(videoId); var r := AfterMoveToQueue(s, videoId, now);
      r.outcome.Done? ==>
        (Holds(s, ProcessingDir, n) && Holds(r.store, QueueDir, n) && !Holds(r.store, ProcessingDir, n)
         && !StatusTransitions.ValidateStatusTransition(PartitionStatus(ProcessingDir), PartitionStatus(QueueDir)))
  {
  }

  // ---------------------------------------------------------------------------
  // The service, one file operation at a time

  /** The states `trace` records after `start` all still hold `name` when
      `before` did. */
  ghost predicate KeptThroughout(before: Store, start: nat, trace: seq<Store>, name: string)
  {
    Present(before, name) ==> forall k :: start <= k < |trace| ==> Present(trace[k], name)
  }

  class TestOutputService {
    /** The four directories. */
    var store: Store
    /** Every state the directories have passed through, one per file write or delete. */
    ghost var trace: seq<Store>

    ghost predicate Valid()
      reads this
    {
      |trace| > 0 && trace[|trace| - 1] == store
    }

    constructor (initial: Store)
      ensures Valid() && store == initial && trace == [initial]
    {
      store := initial;
      trace := [initial];
    }

    // The file primitives: each changes one file and records the new state.

    method WriteQueued(name: string, rec: QueuedOutput, now: Time)
      modifies this
      ensures store == old(store).(queue := old(store).queue[name := Entry(Parsed(rec), now)])
      ensures trace == old(trace) + [store]
    {
      store := store.(queue := store.queue[name := Entry(Parsed(rec), now)]);
      trace := trace + [store];
    }

    method WriteProcessing(name: string, rec: ProcessingOutput, now: Time)
      modifies this
      ensures store == old(store).(processing := old(store).processing[name := Entry(Parsed(rec), now)])
      ensures trace == old(trace) + [store]
    {
      store := store.(processing := store.processing[name := Entry(Parsed(rec), now)]);
      trace := trace + [store];
    }

    method WriteCompleted(name: string, rec: CompletedOutput, now: Time)
      modifies this
      ensures store == old(store).(completed := old(store).completed[name := Entry(Parsed(rec), now)])
      ensures trace == old(trace) + [store]
    {
      store := store.(completed := store.completed[name := Entry(Parsed(rec), now)]);
      trace := trace + [store];
    }

    method WriteFailed(name: string, rec: FailedOutput, now: Time)
      modifies this
      ensures store == old(store).(failed := old(store).failed[name := Entry(Parsed(rec), now)])
      ensures trace == old(trace) + [store]
    {
      store := store.(failed := store.failed[name := Entry(Parsed(rec), now)]);
      trace := trace + [store];
    }

    method UnlinkQueued(name: string)
      modifies this
      ensures store == old(store).(queue := old(store).queue - {name})
      ensures trace == old(trace) + [store]
    {
      store := store.(queue := store.queue - {name});
      trace := trace + [store];
    }

    method UnlinkProcessing(name: string)
      modifies this
      ensures store == old(store).(processing := old(store).processing - {name})
      ensures trace == old(trace) + [store]
    {
      store := store.(processing := store.processing - {name});
      trace := trace + [store];
    }

    /** `ensureNotExists(videoId)`: the loop over the four directories. */
    method EnsureNotExists(videoId: string) returns (outcome: Outcome)
      ensures outcome == ExistenceCheck(store, videoId)
      ensures outcome.Done? <==> !Present(store, FileName(videoId))
    {
      var states := AllPartitions;
      for i := 0 to |states|
        invariant forall j :: 0 <= j < i ==> !Holds(store, states[j], FileName(videoId))
      {
        if Holds(store, states[i], FileName(videoId)) {
          FirstHolderNamed(store, videoId, i);
          return Threw(PlainError("Video already exists in " + DirName(states[i])));
        }
      }
      assert !Holds(store, states[0], FileName(videoId)) && !Holds(store, states[1], FileName(videoId));
      assert !Holds(store, states[2], FileName(videoId)) && !Holds(store, states[3], FileName(videoId));
      return Done;
    }

    /** `ensureNotInState(videoId, state)` */
    method EnsureNotInState(videoId: string, p: Partition) returns (outcome: Outcome)
      ensures outcome == StateCheck(store, videoId, p)
      ensures outcome.Done? <==> !Holds(store, p, FileName(videoId))
    {
      if Holds(store, p, FileName(videoId)) {
        return Threw(PlainError("Video already in " + DirName(p) + " state"));
      }
      return Done;
    }

    method AddToQueue(data: QueueRequest, now: Time) returns (outcome: Outcome)
      requires Valid()
      modifies this
      ensures Valid()
      ensures StoreStep(store, outcome) == AfterAddToQueue(old(store), data, now)
      ensures old(trace) <= trace
    {
      var valid := ValidateQueueData(data);
      if valid.Threw? {
        return Threw(Wrapped(AddContext, valid.failure, "QUEUE_ERROR"));
      }
      var check := EnsureNotExists(data.videoId.value);
      if check.Threw? {
        return Threw(Wrapped(AddContext, check.failure, "QUEUE_ERROR"));
      }
      WriteQueued(FileName(data.videoId.value),
                  QueuedOutput(data.videoId.value, data.url.value, data.notifyEmail, data.queuedAt), now);
      return Done;
    }

    /** Writes the processing copy, then deletes the queued one. */
    method MoveToProcessing(videoId: string, progress: int, now: Time) returns (outcome: Outcome)
      requires Valid()
      modifies this
      ensures Valid()
      ensures StoreStep(store, outcome) == AfterMoveToProcessing(old(store), videoId, progress, now)
      ensures old(trace) <= trace
      ensures KeptThroughout(old(store), |old(trace)|, trace, FileName(videoId))
    {
      var name := FileName(videoId);
      var queueData := ReadFile(store.queue, FilePath(QueueDir, videoId), name);
      if queueData.Err? {
        return Threw(Wrapped(ProcessingContext, queueData.failure, "PROCESSING_ERROR"));
      }
      var check := EnsureNotInState(videoId, ProcessingDir);
      if check.Threw? {
        return Threw(Wrapped(ProcessingContext, check.failure, "PROCESSING_ERROR"));
      }
      WriteProcessing(name, Claimed(queueData.value, now, progress), now);
      UnlinkQueued(name);
      return Done;
    }

    /** Writes the completed copy, then deletes the processing one. */
    method MarkAsCompleted(videoId: string, result: AnalysisResult, now: Time, writeFault: Option<Failure>)
      returns (outcome: Outcome)
      requires Valid()
      modifies this
      ensures Valid()
      ensures StoreStep(store, outcome) == AfterMarkAsCompleted(old(store), videoId, result, now, writeFault)
      ensures old(trace) <= trace
      ensures KeptThroughout(old(store), |old(trace)|, trace, FileName(videoId))
    {
      var name := FileName(videoId);
      var processingData := ReadFile(store.processing, FilePath(ProcessingDir, videoId), name);
      if processingData.Err? {
        return Threw(processingData.failure);
      }
      if writeFault.Some? {
        return Threw(writeFault.value);
      }
      WriteCompleted(name, CompletedOutput(processingData.value, now, result), now);
      UnlinkProcessing(name);
      return Done;
    }

    /** Writes the failed copy, then deletes the processing one. */
    method MarkAsFailed(videoId: string, error: ErrorInfo, now: Time) returns (outcome: Outcome)
      requires Valid()
      modifies this
      ensures Valid()
      ensures StoreStep(store, outcome) == AfterMarkAsFailed(old(store), videoId, error, now)
      ensures old(trace) <= trace
      ensures KeptThroughout(old(store), |old(trace)|, trace, FileName(videoId))
    {
      var name := FileName(videoId);
      var processingData := ReadFile(store.processing, FilePath(ProcessingDir, videoId), name);
      if processingData.Err? {
        return Threw(processingData.failure);
      }
      WriteFailed(name, FailedOutput(processingData.value, now, error), now);
      UnlinkProcessing(name);
      return Done;
    }

    /** Writes the queued copy, then deletes the processing one. */
    method MoveToQueue(videoId: string, now: Time) returns (outcome: Outcome)
      requires Valid()
      modifies this
      ensures Valid()
      ensures StoreStep(store, outcome) == AfterMoveToQueue(old(store), videoId, now)
      ensures old(trace) <= trace
      ensures KeptThroughout(old(store), |old(trace)|, trace, FileName(videoId))
    {
      var name := FileName(videoId);
      var processingData := ReadFile(store.processing, FilePath(ProcessingDir, videoId), name);
      if processingData.Err? {
        return Threw(Wrapped(QueueMoveContext, processingData.failure, "QUEUE_MOVE_ERROR"));
      }
      WriteQueued(name, Requeued(processingData.value, now), now);
      UnlinkProcessing(name);
      return Done;
    }

    /** Rewrites the processing file in place. */
    method UpdateProgress(videoId: string, update: ProgressUpdate, now: Time, writeFault: Option<Failure>)
      returns (outcome: Outcome)
      requires Valid()
      modifies this
      ensures Valid()
      ensures StoreStep(store, outcome) == AfterUpdateProgress(old(store), videoId, update, now, writeFault)
      ensures old(trace) <= trace
      ensures KeptThroughout(old(store), |old(trace)|, trace, FileName(videoId))
    {
      var name := FileName(videoId);
      var processingData := ReadFile(store.processing, FilePath(ProcessingDir, videoId), name);
      if processingData.Err? {
        return Threw(Wrapped(ProgressContext, processingData.failure, "PROGRESS_UPDATE_ERROR"));
      }
      if writeFault.Some? {
        return Threw(Wrapped(ProgressContext, writeFault.value, "PROGRESS_UPDATE_ERROR"));
      }
      WriteProcessing(name, WithProgress(processingData.value, update, now), now);
      return Done;
    }
  }
}
