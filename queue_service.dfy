/** The job runner of server/src/services/queueService.ts, run sequentially:
    each dispatched job runs to its end before the loop looks again, `sleep`
    advances a clock, and `Date.now()` reads it. */
module QueueRunner {
  import opened Common
  import opened TestOutput
  import opened OutputStore
  import DirOrder

  /** `QueueConfig` */
  datatype QueueConfig = QueueConfig(maxConcurrent: int, retryAttempts: int, retryDelay: nat, pollInterval: nat)

  /** The constructor's default configuration. */
  const DefaultConfig := QueueConfig(3, 3, 5000, 1000)

  /** A job counts as stuck once it has sat in processing this long. */
  const StaleAfter := 5 * 60 * 1000

  // ---------------------------------------------------------------------------
  // Listing the directories

  function JsonNames(files: seq<string>): (r: seq<string>)
    ensures forall i :: 0 <= i < |r| ==> EndsWith(r[i], ".json") && r[i] in files
    ensures forall f :: f in files && EndsWith(f, ".json") ==> f in r
    ensures |r| <= |files|
  {
    if files == [] then []
    else (if EndsWith(files[0], ".json") then [files[0]] else []) + JsonNames(files[1..])
  }

  /** `file.replace('.json', '')`: the first occurrence goes. */
  function StripJson(file: string): string
  {
    ReplaceFirst(file, ".json", "")
  }

  /** `getActiveJobs()` over the listing of processing (`None` when
      `readdir` fails): the `.json` names, each stripped of its first ".json". */
  function ActiveJobs(listing: Option<seq<string>>): (r: seq<string>)
    ensures listing.None? ==> r == []
    ensures listing.Some? ==> |r| == |JsonNames(listing.value)|
    ensures listing.Some? ==> forall i :: 0 <= i < |r| ==> r[i] == StripJson(JsonNames(listing.value)[i])
  {
    if listing.None? then []
    else
      var json := JsonNames(listing.value);
      seq(|json|, i requires 0 <= i < |json| => StripJson(json[i]))
  }

  /** For names `<id>.json` whose id has no dot, stripping gives back the id,
      so the processing path the sweep rebuilds is the listed file. */
  lemma ActiveJobsRoundTrip(files: seq<string>)
    requires forall f :: f in files && EndsWith(f, ".json") ==> '.' !in f[..|f| - 5]
    ensures forall i :: 0 <= i < |ActiveJobs(Some(files))| ==>
      FileName(ActiveJobs(Some(files))[i]) == JsonNames(files)[i]
  {
    var json := JsonNames(files);
    var jobs := ActiveJobs(Some(files));
    forall i | 0 <= i < |jobs|
      ensures FileName(jobs[i]) == json[i]
    {
      assert jobs[i] == StripJson(json[i]);
      StripJsonRoundTrip(json[i]);
    }
  }

  lemma StripJsonRoundTrip(f: string)
    requires EndsWith(f, ".json") && '.' !in f[..|f| - 5]
    ensures FileName(StripJson(f)) == f
  {
    var stem := f[..|f| - 5];
    assert f == stem + ".json";
    StripSuffixByReplaceFirst(stem, ".json");
  }

  /** Filtering keeps a listing free of repeats. */
  lemma {:induction false} JsonNamesDistinct(files: seq<string>)
    requires forall i, j :: 0 <= i < j < |files| ==> files[i] != files[j]
    ensures forall i, j :: 0 <= i < j < |JsonNames(files)| ==> JsonNames(files)[i] != JsonNames(files)[j]
    decreases |files|
  {
    if files != [] {
      var rest := files[1..];
      JsonNamesDistinct(rest);
      forall k | 0 <= k < |rest|
        ensures rest[k] != files[0]
      {
        assert rest[k] == files[k + 1];
      }
      assert files[0] !in rest;
    }
  }

  /** One listed file and its `stat().ctimeMs`. */
  datatype FileStat = FileStat(file: string, ctimeMs: Time)

  /** The first entry of `entries` after a stable sort by ctime: an oldest
      one, and the first of the oldest in listing order. */
  function OldestIndex(entries: seq<FileStat>): (i: nat)
    requires entries != []
    ensures i < |entries|
    ensures forall j :: 0 <= j < |entries| ==> entries[i].ctimeMs <= entries[j].ctimeMs
    ensures forall j :: 0 <= j < i ==> entries[j].ctimeMs > entries[i].ctimeMs
    decreases |entries|
  {
    if |entries| == 1 then 0
    else
      var k := OldestIndex(entries[1..]) + 1;
      if entries[k].ctimeMs < entries[0].ctimeMs then k else 0
  }

  function JsonStats(entries: seq<FileStat>): (r: seq<FileStat>)
    ensures forall i :: 0 <= i < |r| ==> EndsWith(r[i].file, ".json") && r[i] in entries
    ensures forall e :: e in entries && EndsWith(e.file, ".json") ==> e in r
  {
    if entries == [] then []
    else (if EndsWith(entries[0].file, ".json") then [entries[0]] else []) + JsonStats(entries[1..])
  }

  /** `getNextQueuedJob()` over the listing of the queue with each file's
      ctime (`None` when `readdir` or a `stat` fails). */
  function NextQueuedJob(listing: Option<seq<FileStat>>): Option<string>
  {
    if listing.None? then None
    else
      var json := JsonStats(listing.value);
      if json == [] then None else Some(StripJson(json[OldestIndex(json)].file))
  }

  /** No job without a `.json` entry; otherwise the job of a `.json` entry
      of least ctime, and of the first such entry in listing order. */
  lemma OldestQueuedJobFirst(listing: Option<seq<FileStat>>)
    ensures listing.None? ==> NextQueuedJob(listing).None?
    ensures listing.Some? ==>
      (NextQueuedJob(listing).None? <==> forall e :: e in listing.value ==> !EndsWith(e.file, ".json"))
    ensures listing.Some? && NextQueuedJob(listing).Some? ==>
      exists i :: 0 <= i < |JsonStats(listing.value)|
        && NextQueuedJob(listing).value == StripJson(JsonStats(listing.value)[i].file)
        && (forall e :: e in listing.value && EndsWith(e.file, ".json") ==> JsonStats(listing.value)[i].ctimeMs <= e.ctimeMs)
        && (forall j :: 0 <= j < i ==> JsonStats(listing.value)[j].ctimeMs > JsonStats(listing.value)[i].ctimeMs)
  {
    if listing.Some? {
      var json := JsonStats(listing.value);
      if json != [] {
        var i := OldestIndex(json);
        forall e | e in listing.value && EndsWith(e.file, ".json")
          ensures json[i].ctimeMs <= e.ctimeMs
        {
          var j :| 0 <= j < |json| && json[j] == e;
        }
      }
    }
  }

  /** The listing of processing, as `readdir` returns it. */
  function ProcessingListing(s: Store): seq<string>
  {
    ListDir(s, ProcessingDir)
  }

  /** The listing of the queue with the ctime of every file. */
  function QueueStats(s: Store): (r: seq<FileStat>)
    ensures |r| == |ListDir(s, QueueDir)|
    ensures forall i :: 0 <= i < |r| ==> r[i].file in s.queue && r[i].ctimeMs == s.queue[r[i].file].ctime
  {
    var l := ListDir(s, QueueDir);
    DirOrder.SortedNamesSpec(Names(s, QueueDir));
    seq(|l|, i requires 0 <= i < |l| => FileStat(l[i], s.queue[l[i]].ctime))
  }

  /** Every queued file is among the stats. */
  lemma QueueStatsCovers(s: Store)
    ensures forall n :: n in s.queue ==> exists i :: 0 <= i < |QueueStats(s)| && QueueStats(s)[i].file == n
  {
    var l := ListDir(s, QueueDir);
    var r := QueueStats(s);
    DirOrder.SortedNamesSpec(Names(s, QueueDir));
    forall n | n in s.queue
      ensures exists i :: 0 <= i < |r| && r[i].file == n
    {
      assert n in l;
      var i :| 0 <= i < |l| && l[i] == n;
      assert r[i].file == n;
    }
  }

  // ---------------------------------------------------------------------------
  // processVideo: five weighted steps

  datatype Step = Step(name: string, weight: int)

  const Steps: seq<Step> := [Step("initialize", 10), Step("fetchMetadata", 20), Step("analyzeContent", 40),
                             Step("generateSummary", 20), Step("finalize", 10)]

  /** `completedWeight` once the first `k` steps are done. */
  function WeightBefore(k: nat): int
    requires k <= |Steps|
  {
    if k == 0 then 0 else WeightBefore(k - 1) + Steps[k - 1].weight
  }

  /** The update step `k` writes. */
  function StepUpdate(k: nat): ProgressUpdate
    requires k < |Steps|
  {
    ProgressUpdate(WeightBefore(k + 1), Steps[k].name, "Processing: " + Steps[k].name)
  }

  /** The progress the steps report is 10, 30, 70, 90, 100: it rises at
      every step, stays within 0..100 and ends at 100, and each update names
      its step. */
  lemma CumulativeProgress()
    ensures [StepUpdate(0).progress, StepUpdate(1).progress, StepUpdate(2).progress,
             StepUpdate(3).progress, StepUpdate(4).progress] == [10, 30, 70, 90, 100]
    ensures forall k :: 0 <= k < |Steps| - 1 ==> StepUpdate(k).progress < StepUpdate(k + 1).progress
    ensures forall k :: 0 <= k < |Steps| ==> 0 < StepUpdate(k).progress <= 100
    ensures StepUpdate(|Steps| - 1).progress == 100
    ensures forall k :: 0 <= k < |Steps| ==>
      StepUpdate(k).currentStep == Steps[k].name && StepUpdate(k).message == "Processing: " + Steps[k].name
  {
    assert WeightBefore(1) == 10 && WeightBefore(2) == 30 && WeightBefore(3) == 70;
    assert WeightBefore(4) == 90 && WeightBefore(5) == 100;
  }

  /** An I/O failure injected into a job: the progress write of step `step`
      (0..4) or, for `step` 5, the write of the completed record. */
  datatype StepFault = StepFault(step: nat, failure: Failure)

  function FaultAt(fault: Option<StepFault>, k: nat): Option<Failure>
  {
    if fault.Some? && fault.value.step == k then Some(fault.value.failure) else None
  }

  function FaultFor(faults: map<string, StepFault>, videoId: string): Option<StepFault>
  {
    if videoId in faults then Some(faults[videoId]) else None
  }

  /** The store, the clock and how the work ended. */
  datatype Run = Run(store: Store, clock: Time, outcome: Outcome)

  /** Steps `k`.. of `processVideo`: sleep a second, add the weight, write
      the progress; the first failing write ends the run. */
  function StepsFrom(s: Store, videoId: string, clock: Time, fault: Option<StepFault>, k: nat): Run
    requires k <= |Steps|
    decreases |Steps| - k
  {
    if k == |Steps| then Run(s, clock, Done)
    else
      var t := clock + 1000;
      var r := AfterUpdateProgress(s, videoId, StepUpdate(k), t, FaultAt(fault, k));
      if r.outcome.Threw? then Run(r.store, t, r.outcome)
      else StepsFrom(r.store, videoId, t, fault, k + 1)
  }

  /** The result `processJob` records for every job. */
  const StubResult := AnalysisResult("Video analysis complete", Positive, ["test"], Metrics("5.2s", 0.92))

  /** The `try` block of `processJob`: claim, run the steps, complete. */
  function Attempt(s: Store, clock: Time, videoId: string, fault: Option<StepFault>): Run
  {
    var claim := AfterMoveToProcessing(s, videoId, 0, clock);
    if claim.outcome.Threw? then Run(claim.store, clock, claim.outcome)
    else
      var steps := StepsFrom(claim.store, videoId, clock, fault, 0);
      if steps.outcome.Threw? then steps
      else
        var done := AfterMarkAsCompleted(steps.store, videoId, StubResult, steps.clock, FaultAt(fault, |Steps|));
        Run(done.store, steps.clock, done.outcome)
  }

  /** `processJob(videoId, attempt)`: retry after `retryDelay` while
      `attempt < retryAttempts`, then record the last error as the failure. */
  function JobRun(cfg: QueueConfig, s: Store, clock: Time, videoId: string, attempt: int,
                  fault: Option<StepFault>): Run
    decreases cfg.retryAttempts - attempt
  {
    var a := Attempt(s, clock, videoId, fault);
    if a.outcome.Done? then a
    else if attempt < cfg.retryAttempts then
      JobRun(cfg, a.store, a.clock + cfg.retryDelay, videoId, attempt + 1, fault)
    else
      var m := AfterMarkAsFailed(a.store, videoId, ErrorInfo(a.outcome.failure.name, a.outcome.failure.message), a.clock);
      Run(m.store, a.clock, m.outcome)
  }

  /** An attempt whose claim succeeds and whose steps fail ends with the steps. */
  lemma AttemptAtSteps(s: Store, s1: Store, clock: Time, videoId: string, fault: Option<StepFault>)
    requires AfterMoveToProcessing(s, videoId, 0, clock) == StoreStep(s1, Done)
    requires StepsFrom(s1, videoId, clock, fault, 0).outcome.Threw?
    ensures Attempt(s, clock, videoId, fault) == StepsFrom(s1, videoId, clock, fault, 0)
  {
  }

  /** An attempt whose claim and steps succeed ends with `markAsCompleted`. */
  lemma AttemptThrough(s: Store, s1: Store, s2: Store, clock: Time, clock2: Time, videoId: string, fault: Option<StepFault>)
    requires AfterMoveToProcessing(s, videoId, 0, clock) == StoreStep(s1, Done)
    requires StepsFrom(s1, videoId, clock, fault, 0) == Run(s2, clock2, Done)
    ensures var done := AfterMarkAsCompleted(s2, videoId, StubResult, clock2, FaultAt(fault, |Steps|));
      Attempt(s, clock, videoId, fault) == Run(done.store, clock2, done.outcome)
  {
  }

  /** How many attempts `processJob(videoId, attempt)` makes. */
  function AttemptsMade(cfg: QueueConfig, s: Store, clock: Time, videoId: string, attempt: int,
                        fault: Option<StepFault>): (n: nat)
    ensures 1 <= n
    ensures attempt >= 1 ==> n <= if cfg.retryAttempts >= attempt then cfg.retryAttempts - attempt + 1 else 1
    decreases cfg.retryAttempts - attempt
  {
    var a := Attempt(s, clock, videoId, fault);
    if a.outcome.Done? then 1
    else if attempt < cfg.retryAttempts then
      1 + AttemptsMade(cfg, a.store, a.clock + cfg.retryDelay, videoId, attempt + 1, fault)
    else 1
  }

  // ---------------------------------------------------------------------------
  // What a job does to the store

  /** The step at which the steps from `k` stop: the faulty one, or
      `|Steps|` when every write succeeds. */
  function LastStep(fault: Option<StepFault>, k: nat): nat
  {
    if fault.Some? && k <= fault.value.step < |Steps| then fault.value.step else |Steps|
  }

  /** What the steps from `k` leave behind, in closed form: the processing
      record carries the last successful step's update, the clock has
      gained a second per step run, and the first failing write's error is
      the outcome. */
  function StepsResult(s: Store, videoId: string, clock: Time, fault: Option<StepFault>, k: nat): Run
    requires k <= |Steps|
    requires FileName(videoId) in s.processing && s.processing[FileName(videoId)].content.Parsed?
  {
    var n := FileName(videoId);
    var last := LastStep(fault, k);
    var at := clock + 1000 * (last - k);
    var s' := if last == k then s
              else Progressed(s, n, StepUpdate(last - 1), at);
    if last < |Steps| then
      Run(s', at + 1000, Threw(Wrapped(ProgressContext, fault.value.failure, "PROGRESS_UPDATE_ERROR")))
    else Run(s', at, Done)
  }

  /** The store after a successful progress write `u` at `t` to file `n`. */
  function Progressed(s: Store, n: string, u: ProgressUpdate, t: Time): Store
    requires n in s.processing && s.processing[n].content.Parsed?
  {
    s.(processing := s.processing[n := Entry(Parsed(WithProgress(s.processing[n].content.record, u, t)), t)])
  }

  /** A second progress write to the same file replaces the first. */
  lemma ProgressedTwice(s: Store, n: string, u: ProgressUpdate, t: Time, v: ProgressUpdate, w: Time)
    requires n in s.processing && s.processing[n].content.Parsed?
    ensures Progressed(Progressed(s, n, u, t), n, v, w) == Progressed(s, n, v, w)
  {
    WithProgressTwice(s.processing[n].content.record, u, t, v, w);
  }

  /** A second progress write replaces everything the first one wrote. */
  lemma WithProgressTwice(p: ProcessingOutput, u: ProgressUpdate, t: Time, v: ProgressUpdate, w: Time)
    ensures WithProgress(WithProgress(p, u, t), v, w) == WithProgress(p, v, w)
  {
  }

  /** One step of the progress loop over a readable processing record. */
  lemma StepOnce(s: Store, videoId: string, clock: Time, fault: Option<StepFault>, k: nat)
    requires k < |Steps|
    requires FileName(videoId) in s.processing && s.processing[FileName(videoId)].content.Parsed?
    ensures var n := FileName(videoId); var t := clock + 1000;
      StepsFrom(s, videoId, clock, fault, k) ==
        if FaultAt(fault, k).Some? then Run(s, t, Threw(Wrapped(ProgressContext, FaultAt(fault, k).value, "PROGRESS_UPDATE_ERROR")))
        else StepsFrom(Progressed(s, n, StepUpdate(k), t),
                       videoId, t, fault, k + 1)
  {
  }

  /** The closed form after one successful step is the closed form of the
      rest. */
  lemma StepsResultShift(s: Store, videoId: string, clock: Time, fault: Option<StepFault>, k: nat)
    requires k < |Steps| && FaultAt(fault, k).None?
    requires FileName(videoId) in s.processing && s.processing[FileName(videoId)].content.Parsed?
    ensures var n := FileName(videoId); var t := clock + 1000;
      StepsResult(s, videoId, clock, fault, k) ==
        StepsResult(Progressed(s, n, StepUpdate(k), t),
                    videoId, t, fault, k + 1)
  {
    var n := FileName(videoId);
    var t := clock + 1000;
    var last := LastStep(fault, k);
    LastStepShift(fault, k);
    if last > k + 1 {
      var at := clock + 1000 * (last - k);
      assert t + 1000 * (last - (k + 1)) == at;
      ProgressedTwice(s, n, StepUpdate(k), t, StepUpdate(last - 1), at);
    }
  }

  lemma LastStepShift(fault: Option<StepFault>, k: nat)
    requires FaultAt(fault, k).None?
    ensures LastStep(fault, k + 1) == LastStep(fault, k)
  {
  }

  /** One step of the progress loop, whatever the processing record. */
  lemma StepUnfold(s: Store, videoId: string, clock: Time, fault: Option<StepFault>, k: nat)
    requires k < |Steps|
    ensures var r := AfterUpdateProgress(s, videoId, StepUpdate(k), clock + 1000, FaultAt(fault, k));
      StepsFrom(s, videoId, clock, fault, k) ==
        if r.outcome.Threw? then Run(r.store, clock + 1000, r.outcome)
        else StepsFrom(r.store, videoId, clock + 1000, fault, k + 1)
  {
  }

  /** With a readable processing record, the steps from `k` end as
      `StepsResult` says: the progress loop in closed form. */
  lemma {:induction false} StepsClosedForm(s: Store, videoId: string, clock: Time, fault: Option<StepFault>, k: nat)
    requires k <= |Steps|
    requires FileName(videoId) in s.processing && s.processing[FileName(videoId)].content.Parsed?
    ensures StepsFrom(s, videoId, clock, fault, k) == StepsResult(s, videoId, clock, fault, k)
    decreases |Steps| - k
  {
    if k < |Steps| {
      var n := FileName(videoId);
      var t := clock + 1000;
      StepOnce(s, videoId, clock, fault, k);
      if FaultAt(fault, k).None? {
        var s1 := Progressed(s, n, StepUpdate(k), t);
        StepsClosedForm(s1, videoId, t, fault, k + 1);
        StepsResultShift(s, videoId, clock, fault, k);
      }
    }
  }

  /** A job whose queued record is readable and not yet in processing, with
      no injected fault, is completed on its first attempt, five seconds
      later: the queued file is gone and the completed file holds the
      claimed record as the last step ("finalize", progress 100) left it. */
  lemma JobSucceeds(cfg: QueueConfig, s: Store, clock: Time, videoId: string)
    requires FileName(videoId) in s.queue && s.queue[FileName(videoId)].content.Parsed?
    requires FileName(videoId) !in s.processing
    ensures var r := JobRun(cfg, s, clock, videoId, 1, None); var n := FileName(videoId);
      var run := WithProgress(Claimed(s.queue[n].content.record, clock, 0), StepUpdate(|Steps| - 1), clock + 5000);
      && r.outcome.Done? && r.clock == clock + 5000
      && AttemptsMade(cfg, s, clock, videoId, 1, None) == 1
      && r.store == s.(queue := s.queue - {n},
                       completed := s.completed[n := Entry(Parsed(CompletedOutput(run, clock + 5000, StubResult)), clock + 5000)])
      && run.progress == 100 && run.currentStep == Some("finalize") && run.startedAt == clock
  {
    SuccessfulAttempt(s, clock, videoId);
    JobRunDone(cfg, s, clock, videoId, 1, None);
    assert WeightBefore(5) == 100;
  }

  /** A last attempt that throws ends the job with `markAsFailed` and the
      attempt's error. */
  lemma JobRunGivesUp(cfg: QueueConfig, s: Store, clock: Time, videoId: string, attempt: int, fault: Option<StepFault>)
    requires Attempt(s, clock, videoId, fault).outcome.Threw? && attempt >= cfg.retryAttempts
    ensures var a := Attempt(s, clock, videoId, fault);
      var m := AfterMarkAsFailed(a.store, videoId, ErrorInfo(a.outcome.failure.name, a.outcome.failure.message), a.clock);
      JobRun(cfg, s, clock, videoId, attempt, fault) == Run(m.store, a.clock, m.outcome)
  {
  }

  /** An attempt that succeeds ends the job, after one attempt. */
  lemma JobRunDone(cfg: QueueConfig, s: Store, clock: Time, videoId: string, attempt: int, fault: Option<StepFault>)
    requires Attempt(s, clock, videoId, fault).outcome.Done?
    ensures JobRun(cfg, s, clock, videoId, attempt, fault) == Attempt(s, clock, videoId, fault)
    ensures AttemptsMade(cfg, s, clock, videoId, attempt, fault) == 1
  {
  }

  /** A readable queued job not yet in processing, with no injected fault,
      is claimed, run through every step and completed five seconds later. */
  lemma SuccessfulAttempt(s: Store, clock: Time, videoId: string)
    requires FileName(videoId) in s.queue && s.queue[FileName(videoId)].content.Parsed?
    requires FileName(videoId) !in s.processing
    ensures var n := FileName(videoId);
      var run := WithProgress(Claimed(s.queue[n].content.record, clock, 0), StepUpdate(|Steps| - 1), clock + 5000);
      Attempt(s, clock, videoId, None)
        == Run(s.(queue := s.queue - {n},
                  completed := s.completed[n := Entry(Parsed(CompletedOutput(run, clock + 5000, StubResult)), clock + 5000)]),
               clock + 5000, Done)
  {
    var n := FileName(videoId);
    var q := s.queue[n].content.record;
    MoveToProcessingSpec(s, videoId, 0, clock);
    var s1 := s.(processing := s.processing[n := Entry(Parsed(Claimed(q, clock, 0)), clock)], queue := s.queue - {n});
    assert AfterMoveToProcessing(s, videoId, 0, clock) == StoreStep(s1, Done);
    StepsClosedForm(s1, videoId, clock, None, 0);
    var run := WithProgress(Claimed(q, clock, 0), StepUpdate(|Steps| - 1), clock + 5000);
    var s2 := Progressed(s1, n, StepUpdate(|Steps| - 1), clock + 5000);
    assert LastStep(None, 0) == |Steps|;
    assert StepsResult(s1, videoId, clock, None, 0) == Run(s2, clock + 5000, Done);
    AttemptThrough(s, s1, s2, clock, clock + 5000, videoId, None);
    MarkAsCompletedSpec(s2, videoId, StubResult, clock + 5000, None);
    assert s2.processing - {n} == s.processing;
  }

  /** The failure `moveToProcessing` reports once the queued file is gone. */
  function ClaimGone(videoId: string): Failure
  {
    Wrapped(ProcessingContext, PlainError("File not found: " + FilePath(QueueDir, videoId)), "PROCESSING_ERROR")
  }

  /** The retry defect: once the first attempt has claimed the job, every
      retry calls `moveToProcessing` again and fails because the queued file
      is gone. From any attempt on, the job runs out its attempts, then
      `markAsFailed` records the last retry's error ("File not found" for
      the queued file), not whatever broke the first attempt. */
  lemma {:induction false} RetriesFailAfterClaim(cfg: QueueConfig, s: Store, clock: Time, videoId: string, attempt: int,
                                                 fault: Option<StepFault>)
    requires FileName(videoId) !in s.queue
    requires FileName(videoId) in s.processing && s.processing[FileName(videoId)].content.Parsed?
    ensures var r := JobRun(cfg, s, clock, videoId, attempt, fault); var n := FileName(videoId);
      var waited := if attempt < cfg.retryAttempts then cfg.retryDelay * (cfg.retryAttempts - attempt) else 0;
      && r.outcome.Done? && r.clock == clock + waited
      && AttemptsMade(cfg, s, clock, videoId, attempt, fault)
         == (if attempt < cfg.retryAttempts then cfg.retryAttempts - attempt + 1 else 1)
      && r.store == s.(processing := s.processing - {n},
                       failed := s.failed[n := Entry(Parsed(FailedOutput(s.processing[n].content.record, clock + waited,
                                   ErrorInfo(ClaimGone(videoId).name, ClaimGone(videoId).message))), clock + waited)])
    decreases cfg.retryAttempts - attempt
  {
    var a := Attempt(s, clock, videoId, fault);
    assert a == Run(s, clock, Threw(ClaimGone(videoId)));
    if attempt < cfg.retryAttempts {
      RetriesFailAfterClaim(cfg, s, clock + cfg.retryDelay, videoId, attempt + 1, fault);
      assert cfg.retryDelay * (cfg.retryAttempts - attempt)
          == cfg.retryDelay + cfg.retryDelay * (cfg.retryAttempts - (attempt + 1));
    } else {
      MarkAsFailedSpec(s, videoId, ErrorInfo(ClaimGone(videoId).name, ClaimGone(videoId).message), clock);
    }
  }

  /** The job of the source's retry path: a readable queued job whose
      injected fault breaks the first attempt makes every one of its
      `retryAttempts` attempts and ends in failed. The record kept is the
      processing record as the last successful step left it; with more than
      one attempt the recorded error is the retry's "File not found", a
      `TestOutputError`, whatever the fault was. */
  lemma FaultedJobEndsFailed(cfg: QueueConfig, s: Store, clock: Time, videoId: string, fault: StepFault)
    requires FileName(videoId) in s.queue && s.queue[FileName(videoId)].content.Parsed?
    requires FileName(videoId) !in s.processing
    requires fault.step <= |Steps|
    requires cfg.retryAttempts >= 1
    ensures var r := JobRun(cfg, s, clock, videoId, 1, Some(fault)); var n := FileName(videoId);
      && r.outcome.Done?
      && AttemptsMade(cfg, s, clock, videoId, 1, Some(fault)) == cfg.retryAttempts
      && r.store.queue == s.queue - {n} && r.store.processing == s.processing
      && n in r.store.failed && r.store.failed[n].content.Parsed?
      && var f := r.store.failed[n].content.record;
      && f.run.progress == WeightBefore(fault.step) && f.run.startedAt == clock
      && f.error.code == (if cfg.retryAttempts > 1 || fault.step < |Steps| then "TestOutputError" else fault.failure.name)
      && (cfg.retryAttempts > 1 ==> f.error.message == ClaimGone(videoId).message)
  {
    if 1 < cfg.retryAttempts {
      FaultedJobRetried(cfg, s, clock, videoId, fault);
    } else {
      FaultedJobNotRetried(cfg, s, clock, videoId, fault);
    }
  }

  lemma FaultedJobRetried(cfg: QueueConfig, s: Store, clock: Time, videoId: string, fault: StepFault)
    requires FileName(videoId) in s.queue && s.queue[FileName(videoId)].content.Parsed?
    requires FileName(videoId) !in s.processing
    requires fault.step <= |Steps|
    requires cfg.retryAttempts > 1
    ensures var r := JobRun(cfg, s, clock, videoId, 1, Some(fault)); var n := FileName(videoId);
      && r.outcome.Done?
      && AttemptsMade(cfg, s, clock, videoId, 1, Some(fault)) == cfg.retryAttempts
      && r.store.queue == s.queue - {n} && r.store.processing == s.processing
      && n in r.store.failed && r.store.failed[n].content.Parsed?
      && var f := r.store.failed[n].content.record;
      && f.run.progress == WeightBefore(fault.step) && f.run.startedAt == clock
      && f.error.code == "TestOutputError" && f.error.message == ClaimGone(videoId).message
  {
    FaultedAttempt(s, clock, videoId, fault);
    var a := Attempt(s, clock, videoId, Some(fault));
    JobRunRetries(cfg, s, clock, videoId, 1, Some(fault));
    RetryAfterFault(cfg, s, a.store, a.clock + cfg.retryDelay, videoId, Some(fault));
  }

  /** The second attempt onwards, from the store a broken first attempt
      left: the claimed record ends in failed with the retry's error. */
  lemma RetryAfterFault(cfg: QueueConfig, s: Store, s': Store, t: Time, videoId: string, fault: Option<StepFault>)
    requires var n := FileName(videoId);
      && s'.queue == s.queue - {n} && s'.processing - {n} == s.processing
      && n in s'.processing && s'.processing[n].content.Parsed?
    ensures var r := JobRun(cfg, s', t, videoId, 2, fault); var n := FileName(videoId);
      && r.outcome.Done?
      && AttemptsMade(cfg, s', t, videoId, 2, fault) == (if 2 < cfg.retryAttempts then cfg.retryAttempts - 1 else 1)
      && r.store.queue == s.queue - {n} && r.store.processing == s.processing
      && n in r.store.failed && r.store.failed[n].content.Parsed?
      && r.store.failed[n].content.record.run == s'.processing[n].content.record
      && r.store.failed[n].content.record.error == ErrorInfo(ClaimGone(videoId).name, ClaimGone(videoId).message)
  {
    var n := FileName(videoId);
    assert n !in s'.queue;
    RetriesFailAfterClaim(cfg, s', t, videoId, 2, fault);
  }

  /** An attempt that throws before the last one is followed by the next
      attempt, a retry delay later. */
  lemma JobRunRetries(cfg: QueueConfig, s: Store, clock: Time, videoId: string, attempt: int, fault: Option<StepFault>)
    requires Attempt(s, clock, videoId, fault).outcome.Threw? && attempt < cfg.retryAttempts
    ensures var a := Attempt(s, clock, videoId, fault);
      && JobRun(cfg, s, clock, videoId, attempt, fault) == JobRun(cfg, a.store, a.clock + cfg.retryDelay, videoId, attempt + 1, fault)
      && AttemptsMade(cfg, s, clock, videoId, attempt, fault)
         == 1 + AttemptsMade(cfg, a.store, a.clock + cfg.retryDelay, videoId, attempt + 1, fault)
  {
  }

  lemma FaultedJobNotRetried(cfg: QueueConfig, s: Store, clock: Time, videoId: string, fault: StepFault)
    requires FileName(videoId) in s.queue && s.queue[FileName(videoId)].content.Parsed?
    requires FileName(videoId) !in s.processing
    requires fault.step <= |Steps|
    requires cfg.retryAttempts == 1
    ensures var r := JobRun(cfg, s, clock, videoId, 1, Some(fault)); var n := FileName(videoId);
      && r.outcome.Done?
      && AttemptsMade(cfg, s, clock, videoId, 1, Some(fault)) == 1
      && r.store.queue == s.queue - {n} && r.store.processing == s.processing
      && n in r.store.failed && r.store.failed[n].content.Parsed?
      && var f := r.store.failed[n].content.record;
      && f.run.progress == WeightBefore(fault.step) && f.run.startedAt == clock
      && f.error.code == (if fault.step < |Steps| then "TestOutputError" else fault.failure.name)
  {
    FaultedAttempt(s, clock, videoId, fault);
    var a := Attempt(s, clock, videoId, Some(fault));
    var m := AfterMarkAsFailed(a.store, videoId, ErrorInfo(a.outcome.failure.name, a.outcome.failure.message), a.clock);
    assert JobRun(cfg, s, clock, videoId, 1, Some(fault)) == Run(m.store, a.clock, m.outcome);
    MarkAsFailedSpec(a.store, videoId, ErrorInfo(a.outcome.failure.name, a.outcome.failure.message), a.clock);
  }

  /** The first attempt of a job with a fault claims it, runs the steps up to
      the faulty write and throws: the record stays in processing with the
      last successful step's progress. */
  lemma FaultedAttempt(s: Store, clock: Time, videoId: string, fault: StepFault)
    requires FileName(videoId) in s.queue && s.queue[FileName(videoId)].content.Parsed?
    requires FileName(videoId) !in s.processing
    requires fault.step <= |Steps|
    ensures var a := Attempt(s, clock, videoId, Some(fault)); var n := FileName(videoId);
      && a.outcome.Threw?
      && a.outcome.failure.name == (if fault.step < |Steps| then "TestOutputError" else fault.failure.name)
      && a.store.queue == s.queue - {n} && a.store.processing - {n} == s.processing
      && a.store.completed == s.completed && a.store.failed == s.failed
      && n in a.store.processing && a.store.processing[n].content.Parsed?
      && a.store.processing[n].content.record.progress == WeightBefore(fault.step)
      && a.store.processing[n].content.record.startedAt == clock
  {
    var n := FileName(videoId);
    var q := s.queue[n].content.record;
    MoveToProcessingSpec(s, videoId, 0, clock);
    var s1 := s.(processing := s.processing[n := Entry(Parsed(Claimed(q, clock, 0)), clock)], queue := s.queue - {n});
    assert AfterMoveToProcessing(s, videoId, 0, clock) == StoreStep(s1, Done);
    assert s1.processing - {n} == s.processing;
    FaultedSteps(s1, clock, videoId, fault);
    StepsClosedForm(s1, videoId, clock, Some(fault), 0);
    var steps := StepsFrom(s1, videoId, clock, Some(fault), 0);
    if fault.step == |Steps| {
      MarkAsCompletedSpec(steps.store, videoId, StubResult, steps.clock, Some(fault.failure));
    }
  }

  /** The steps of a claimed job with a fault, in closed form: every write
      before the faulty one lands; the store is otherwise untouched. */
  lemma FaultedSteps(s1: Store, clock: Time, videoId: string, fault: StepFault)
    requires FileName(videoId) in s1.processing && s1.processing[FileName(videoId)].content.Parsed?
    requires s1.processing[FileName(videoId)].content.record.progress == 0
    requires fault.step <= |Steps|
    ensures var st := StepsResult(s1, videoId, clock, Some(fault), 0); var n := FileName(videoId);
      && (st.outcome.Threw? <==> fault.step < |Steps|)
      && (st.outcome.Threw? ==> st.outcome.failure.name == "TestOutputError")
      && st.store.queue == s1.queue && st.store.completed == s1.completed && st.store.failed == s1.failed
      && st.store.processing - {n} == s1.processing - {n}
      && n in st.store.processing && st.store.processing[n].content.Parsed?
      && st.store.processing[n].content.record.progress == WeightBefore(fault.step)
      && st.store.processing[n].content.record.startedAt == s1.processing[n].content.record.startedAt
  {
    if fault.step == 0 {
      FaultedAtFirstStep(s1, clock, videoId, fault);
    } else {
      FaultedAfterWrites(s1, clock, videoId, fault);
    }
  }

  lemma FaultedAtFirstStep(s1: Store, clock: Time, videoId: string, fault: StepFault)
    requires FileName(videoId) in s1.processing && s1.processing[FileName(videoId)].content.Parsed?
    requires fault.step == 0
    ensures var st := StepsResult(s1, videoId, clock, Some(fault), 0);
      st == Run(s1, clock + 1000, Threw(Wrapped(ProgressContext, fault.failure, "PROGRESS_UPDATE_ERROR")))
  {
  }

  lemma FaultedAfterWrites(s1: Store, clock: Time, videoId: string, fault: StepFault)
    requires FileName(videoId) in s1.processing && s1.processing[FileName(videoId)].content.Parsed?
    requires 0 < fault.step <= |Steps|
    ensures var st := StepsResult(s1, videoId, clock, Some(fault), 0); var n := FileName(videoId);
      var at := clock + 1000 * fault.step;
      var rec := WithProgress(s1.processing[n].content.record, StepUpdate(fault.step - 1), at);
      && st.store == s1.(processing := s1.processing[n := Entry(Parsed(rec), at)])
      && rec.progress == WeightBefore(fault.step)
      && (st.outcome.Threw? <==> fault.step < |Steps|)
      && (st.outcome.Threw? ==> st.outcome == Threw(Wrapped(ProgressContext, fault.failure, "PROGRESS_UPDATE_ERROR")))
  {
    assert LastStep(Some(fault), 0) == fault.step;
  }

  /** A job whose queued file cannot be read fails every attempt at the
      claim, and the final `markAsFailed` finds nothing in processing:
      `processJob` rejects and the store is left exactly as it was. */
  lemma {:induction false} UnreadableJobChangesNothing(cfg: QueueConfig, s: Store, clock: Time, videoId: string,
                                                       attempt: int, fault: Option<StepFault>)
    requires FileName(videoId) in s.queue && s.queue[FileName(videoId)].content.Unreadable?
    requires FileName(videoId) !in s.processing
    ensures var r := JobRun(cfg, s, clock, videoId, attempt, fault);
      && r.store == s
      && r.outcome == Threw(PlainError("File not found: " + FilePath(ProcessingDir, videoId)))
      && r.clock == clock + (if attempt < cfg.retryAttempts then cfg.retryDelay * (cfg.retryAttempts - attempt) else 0)
    decreases cfg.retryAttempts - attempt
  {
    var a := Attempt(s, clock, videoId, fault);
    assert a.store == s && a.clock == clock && a.outcome.Threw?;
    if attempt < cfg.retryAttempts {
      UnreadableJobChangesNothing(cfg, s, clock + cfg.retryDelay, videoId, attempt + 1, fault);
      assert cfg.retryDelay * (cfg.retryAttempts - attempt)
          == cfg.retryDelay + cfg.retryDelay * (cfg.retryAttempts - (attempt + 1));
    }
  }

  // ---------------------------------------------------------------------------
  // The dispatch loop

  datatype TickResult = TickResult(store: Store, clock: Time, dispatched: Option<string>)

  /** One pass of the `while (this.isProcessing)` loop. */
  function TickStep(cfg: QueueConfig, s: Store, clock: Time, faults: map<string, StepFault>): TickResult
  {
    if |ActiveJobs(Some(ProcessingListing(s)))| < cfg.maxConcurrent then
      match NextQueuedJob(Some(QueueStats(s)))
      case Some(videoId) =>
        var r := JobRun(cfg, s, clock, videoId, 1, FaultFor(faults, videoId));
        TickResult(r.store, r.clock, Some(videoId))
      case None => TickResult(s, clock + cfg.pollInterval, None)
    else TickResult(s, clock + cfg.pollInterval, None)
  }

  /** `n` passes of the loop. */
  function Ticks(cfg: QueueConfig, s: Store, clock: Time, n: nat, faults: map<string, StepFault>): TickResult
    decreases n
  {
    if n == 0 then TickResult(s, clock, None)
    else
      var t := TickStep(cfg, s, clock, faults);
      Ticks(cfg, t.store, t.clock, n - 1, faults)
  }

  lemma TicksUnfold(cfg: QueueConfig, s: Store, clock: Time, n: nat, faults: map<string, StepFault>)
    requires n > 0
    ensures var t := TickStep(cfg, s, clock, faults); Ticks(cfg, s, clock, n, faults) == Ticks(cfg, t.store, t.clock, n - 1, faults)
  {
  }

  /** The concurrency gate: a job is dispatched only while fewer than
      `maxConcurrent` jobs are listed in processing and the queue holds a
      `.json` file, and then it is the oldest queued job; otherwise the pass
      only sleeps `pollInterval`. */
  lemma DispatchGate(cfg: QueueConfig, s: Store, clock: Time, faults: map<string, StepFault>)
    ensures var t := TickStep(cfg, s, clock, faults);
      && (t.dispatched.Some? <==>
            |ActiveJobs(Some(ProcessingListing(s)))| < cfg.maxConcurrent
            && exists n :: n in s.queue && EndsWith(n, ".json"))
      && (t.dispatched.None? ==> t.store == s && t.clock == clock + cfg.pollInterval)
      && (t.dispatched.Some? ==> t.dispatched == NextQueuedJob(Some(QueueStats(s))))
  {
    var stats := QueueStats(s);
    QueueStatsCovers(s);
    OldestQueuedJobFirst(Some(stats));
    if exists n :: n in s.queue && EndsWith(n, ".json") {
      var n :| n in s.queue && EndsWith(n, ".json");
      var i :| 0 <= i < |stats| && stats[i].file == n;
      assert stats[i] in stats;
    }
  }

  /** Starvation: with `maxConcurrent` or more `.json` files in processing,
      no pass dispatches anything, so nothing in the store ever changes. */
  lemma {:induction false} Starvation(cfg: QueueConfig, s: Store, clock: Time, n: nat, faults: map<string, StepFault>)
    requires |JsonNames(ProcessingListing(s))| >= cfg.maxConcurrent
    ensures Ticks(cfg, s, clock, n, faults) == TickResult(s, clock + n * cfg.pollInterval, None)
    decreases n
  {
    if n > 0 {
      GateClosed(cfg, s, clock, faults);
      TicksUnfold(cfg, s, clock, n, faults);
      Starvation(cfg, s, clock + cfg.pollInterval, n - 1, faults);
      assert clock + cfg.pollInterval + (n - 1) * cfg.pollInterval == clock + n * cfg.pollInterval;
    }
  }

  /** A pass with the gate closed only sleeps. */
  lemma GateClosed(cfg: QueueConfig, s: Store, clock: Time, faults: map<string, StepFault>)
    requires |JsonNames(ProcessingListing(s))| >= cfg.maxConcurrent
    ensures TickStep(cfg, s, clock, faults) == TickResult(s, clock + cfg.pollInterval, None)
  {
  }

  /** One pass over a queue whose oldest file cannot be read dispatches that
      job and leaves the store as it was. */
  lemma PoisonTick(cfg: QueueConfig, s: Store, clock: Time, faults: map<string, StepFault>, videoId: string)
    requires |ActiveJobs(Some(ProcessingListing(s)))| < cfg.maxConcurrent
    requires NextQueuedJob(Some(QueueStats(s))) == Some(videoId)
    requires FileName(videoId) in s.queue && s.queue[FileName(videoId)].content.Unreadable?
    requires FileName(videoId) !in s.processing
    ensures TickStep(cfg, s, clock, faults).store == s
    ensures TickStep(cfg, s, clock, faults).dispatched == Some(videoId)
  {
    UnreadableJobChangesNothing(cfg, s, clock, videoId, 1, FaultFor(faults, videoId));
  }

  /** A store that no pass changes stays as it is over any number of passes. */
  lemma {:induction false} TicksKeepFixpoint(cfg: QueueConfig, s: Store, clock: Time, n: nat, faults: map<string, StepFault>)
    requires forall c :: TickStep(cfg, s, c, faults).store == s
    ensures Ticks(cfg, s, clock, n, faults).store == s
    decreases n
  {
    if n > 0 {
      TicksKeepFixpoint(cfg, s, TickStep(cfg, s, clock, faults).clock, n - 1, faults);
    }
  }

  /** The poison pill: when the oldest queued file cannot be read, every
      pass dispatches that same job and changes nothing, so no job behind it
      ever runs. */
  lemma PoisonPill(cfg: QueueConfig, s: Store, clock: Time, n: nat, faults: map<string, StepFault>, videoId: string)
    requires |ActiveJobs(Some(ProcessingListing(s)))| < cfg.maxConcurrent
    requires NextQueuedJob(Some(QueueStats(s))) == Some(videoId)
    requires FileName(videoId) in s.queue && s.queue[FileName(videoId)].content.Unreadable?
    requires FileName(videoId) !in s.processing
    ensures Ticks(cfg, s, clock, n, faults).store == s
  {
    forall c ensures TickStep(cfg, s, c, faults).store == s {
      PoisonTick(cfg, s, c, faults, videoId);
    }
    TicksKeepFixpoint(cfg, s, clock, n, faults);
  }

  // ---------------------------------------------------------------------------
  // Recovery of stuck jobs

  /** The `details` of a log event. */
  datatype Details = ProcessingTime(ms: int) | Action(name: string) | ErrorDetail(message: string)

  /** The argument of `logEvent`. */
  datatype LogEvent = LogEvent(level: string, event: string, videoId: string, details: Details)

  /** The message of a failed `fs.stat`. */
  function StatError(path: string): string
  {
    "ENOENT: no such file or directory, stat '" + path + "'"
  }

  predicate Stale(s: Store, videoId: string, now: Time)
  {
    FileName(videoId) in s.processing && now - s.processing[FileName(videoId)].ctime > StaleAfter
  }

  function RecoveryFailed(message: string): LogEvent
  {
    LogEvent("error", "RECOVERY_FAILED", "system", ErrorDetail(message))
  }

  datatype Sweep = Sweep(store: Store, log: seq<LogEvent>)

  /** `recoverStuckJobs()` over the remaining job ids, with `logEvent`
      appending to the log: a stuck job is logged, moved to the queue and
      logged again; the first error is logged and ends the sweep. */
  function RecoverFrom(s: Store, log: seq<LogEvent>, now: Time, jobs: seq<string>): Sweep
    decreases |jobs|
  {
    if jobs == [] then Sweep(s, log)
    else
      var videoId := jobs[0];
      if FileName(videoId) !in s.processing then
        Sweep(s, log + [RecoveryFailed(StatError(FilePath(ProcessingDir, videoId)))])
      else if Stale(s, videoId, now) then
        var detected := LogEvent("warn", "STUCK_JOB_DETECTED", videoId,
                                 ProcessingTime(now - s.processing[FileName(videoId)].ctime));
        var m := AfterMoveToQueue(s, videoId, now);
        if m.outcome.Threw? then Sweep(m.store, log + [detected, RecoveryFailed(m.outcome.failure.message)])
        else RecoverFrom(m.store, log + [detected, LogEvent("info", "JOB_RECOVERED", videoId, Action("moved_to_queue"))],
                         now, jobs[1..])
      else RecoverFrom(s, log, now, jobs[1..])
  }

  /** The sweep over what `getActiveJobs` lists. */
  function Recovery(s: Store, log: seq<LogEvent>, now: Time): Sweep
  {
    RecoverFrom(s, log, now, ActiveJobs(Some(ProcessingListing(s))))
  }

  /** The ids a sweep over `jobs` can act on without error: each names a
      readable processing file, and no id repeats. */
  predicate CleanSweep(s: Store, jobs: seq<string>)
  {
    && (forall i :: 0 <= i < |jobs| ==> FileName(jobs[i]) in s.processing && s.processing[FileName(jobs[i])].content.Parsed?)
    && (forall i, j :: 0 <= i < j < |jobs| ==> jobs[i] != jobs[j])
  }

  /** `name` is the file of a stale listed job. */
  predicate Requeues(s: Store, now: Time, jobs: seq<string>, name: string)
  {
    exists i :: 0 <= i < |jobs| && Stale(s, jobs[i], now) && name == FileName(jobs[i])
  }

  function StaleCount(s: Store, now: Time, jobs: seq<string>): nat
    decreases |jobs|
  {
    if jobs == [] then 0 else (if Stale(s, jobs[0], now) then 1 else 0) + StaleCount(s, now, jobs[1..])
  }

  lemma FileNameInjective(a: string, b: string)
    requires FileName(a) == FileName(b)
    ensures a == b
  {
    assert a == FileName(a)[..|a|] && b == FileName(b)[..|b|];
  }

  /** Two stores that agree on the listed jobs' processing files agree on
      which of them are stale. */
  lemma {:induction false} StaleAgree(s: Store, t: Store, now: Time, jobs: seq<string>)
    requires forall i :: 0 <= i < |jobs| ==>
      (FileName(jobs[i]) in s.processing && FileName(jobs[i]) in t.processing
       && t.processing[FileName(jobs[i])] == s.processing[FileName(jobs[i])])
    ensures forall i :: 0 <= i < |jobs| ==> (Stale(t, jobs[i], now) <==> Stale(s, jobs[i], now))
    ensures StaleCount(t, now, jobs) == StaleCount(s, now, jobs)
    ensures forall name :: Requeues(t, now, jobs, name) <==> Requeues(s, now, jobs, name)
    decreases |jobs|
  {
    if jobs != [] {
      StaleAgree(s, t, now, jobs[1..]);
    }
  }

  /** What a clean sweep over `jobs` from `s` and `log` must leave: exactly
      the stale listed jobs moved to the queue, each with a fresh queued
      record, every other file as it was, and two log events per moved job
      appended to the log. */
  ghost predicate RequeuesExactlyStale(s: Store, log: seq<LogEvent>, now: Time, jobs: seq<string>, r: Sweep)
    requires CleanSweep(s, jobs)
  {
    && r.store.completed == s.completed && r.store.failed == s.failed
    && (forall i :: 0 <= i < |jobs| && Stale(s, jobs[i], now) ==>
          && FileName(jobs[i]) !in r.store.processing && FileName(jobs[i]) in r.store.queue
          && r.store.queue[FileName(jobs[i])] ==
             Entry(Parsed(Requeued(s.processing[FileName(jobs[i])].content.record, now)), now))
    && (forall name :: name in r.store.processing <==> name in s.processing && !Requeues(s, now, jobs, name))
    && (forall name :: name in r.store.processing ==> r.store.processing[name] == s.processing[name])
    && (forall name :: name in s.queue ==> name in r.store.queue && r.store.queue[name] == s.queue[name])
    && (forall name :: name in r.store.queue ==> name in s.queue || Requeues(s, now, jobs, name))
    && |r.log| == |log| + 2 * StaleCount(s, now, jobs)
    && log <= r.log
  }

  /** The sweep from the `i`-th listed job on, when `stat` cannot find it. */
  lemma SweepStatFails(s: Store, log: seq<LogEvent>, now: Time, jobs: seq<string>, i: nat)
    requires i < |jobs| && FileName(jobs[i]) !in s.processing
    ensures RecoverFrom(s, log, now, jobs[i..]) == Sweep(s, log + [RecoveryFailed(StatError(FilePath(ProcessingDir, jobs[i])))])
  {
    assert jobs[i..][0] == jobs[i];
  }

  /** The sweep from the `i`-th listed job on, when it is not stuck. */
  lemma SweepSkips(s: Store, log: seq<LogEvent>, now: Time, jobs: seq<string>, i: nat)
    requires i < |jobs| && FileName(jobs[i]) in s.processing && !Stale(s, jobs[i], now)
    ensures RecoverFrom(s, log, now, jobs[i..]) == RecoverFrom(s, log, now, jobs[i + 1..])
  {
    assert jobs[i..][0] == jobs[i] && jobs[i..][1..] == jobs[i + 1..];
  }

  /** The sweep from the `i`-th listed job on, when it is stuck: both log
      events and the move, or the move's error. */
  lemma SweepRequeues(s: Store, log: seq<LogEvent>, now: Time, jobs: seq<string>, i: nat, started: seq<LogEvent>)
    requires i < |jobs| && Stale(s, jobs[i], now)
    requires started == log + [LogEvent("warn", "STUCK_JOB_DETECTED", jobs[i],
                                        ProcessingTime(now - s.processing[FileName(jobs[i])].ctime))]
    ensures var m := AfterMoveToQueue(s, jobs[i], now);
      && (m.outcome.Threw? ==>
           RecoverFrom(s, log, now, jobs[i..]) == Sweep(m.store, started + [RecoveryFailed(m.outcome.failure.message)]))
      && (m.outcome.Done? ==>
           RecoverFrom(s, log, now, jobs[i..]) ==
           RecoverFrom(m.store, started + [LogEvent("info", "JOB_RECOVERED", jobs[i], Action("moved_to_queue"))],
                       now, jobs[i + 1..]))
  {
    assert jobs[i..][0] == jobs[i] && jobs[i..][1..] == jobs[i + 1..];
    var m := AfterMoveToQueue(s, jobs[i], now);
    if m.outcome.Threw? {
      assert started + [RecoveryFailed(m.outcome.failure.message)] ==
        log + [started[|log|], RecoveryFailed(m.outcome.failure.message)];
    }
    assert started + [LogEvent("info", "JOB_RECOVERED", jobs[i], Action("moved_to_queue"))] ==
      log + [started[|log|], LogEvent("info", "JOB_RECOVERED", jobs[i], Action("moved_to_queue"))];
  }

  /** The staleness rule: a clean sweep moves exactly the stale listed jobs
      to the queue and leaves every other file alone. */
  lemma {:induction false} RecoveryRequeuesExactlyStale(s: Store, log: seq<LogEvent>, now: Time, jobs: seq<string>)
    requires Apart(s)
    requires CleanSweep(s, jobs)
    ensures RequeuesExactlyStale(s, log, now, jobs, RecoverFrom(s, log, now, jobs))
    decreases |jobs|
  {
    if jobs != [] {
      if Stale(s, jobs[0], now) {
        StaleHeadRequeued(s, log, now, jobs);
      } else {
        CleanRest(s, jobs);
        RecoveryRequeuesExactlyStale(s, log, now, jobs[1..]);
        FreshHeadSkipped(s, log, now, jobs);
      }
    }
  }

  lemma CleanRest(s: Store, jobs: seq<string>)
    requires CleanSweep(s, jobs) && jobs != []
    ensures CleanSweep(s, jobs[1..])
  {
    var rest := jobs[1..];
    assert forall i :: 0 <= i < |rest| ==> rest[i] == jobs[i + 1];
  }

  /** The step of the staleness rule where the first listed job is fresh:
      the sweep goes on with the rest. */
  lemma FreshHeadSkipped(s: Store, log: seq<LogEvent>, now: Time, jobs: seq<string>)
    requires CleanSweep(s, jobs) && jobs != [] && !Stale(s, jobs[0], now)
    requires CleanSweep(s, jobs[1..])
    requires RequeuesExactlyStale(s, log, now, jobs[1..], RecoverFrom(s, log, now, jobs[1..]))
    ensures RequeuesExactlyStale(s, log, now, jobs, RecoverFrom(s, log, now, jobs))
  {
    var rest := jobs[1..];
    assert RecoverFrom(s, log, now, jobs) == RecoverFrom(s, log, now, rest);
    assert StaleCount(s, now, jobs) == StaleCount(s, now, rest);
    forall name
      ensures Requeues(s, now, rest, name) <==> Requeues(s, now, jobs, name)
    {
      if Requeues(s, now, jobs, name) {
        var i :| 0 <= i < |jobs| && Stale(s, jobs[i], now) && name == FileName(jobs[i]);
        assert i > 0 && rest[i - 1] == jobs[i];
      }
      if Requeues(s, now, rest, name) {
        var i :| 0 <= i < |rest| && Stale(s, rest[i], now) && name == FileName(rest[i]);
        assert jobs[i + 1] == rest[i];
      }
    }
    forall i | 0 <= i < |jobs| && Stale(s, jobs[i], now)
      ensures i > 0 && rest[i - 1] == jobs[i]
    {
    }
  }

  /** `moveToQueue` of a readable processing record, in closed form. */
  function Requeue(s: Store, videoId: string, now: Time): Store
    requires FileName(videoId) in s.processing && s.processing[FileName(videoId)].content.Parsed?
  {
    var n := FileName(videoId);
    s.(queue := s.queue[n := Entry(Parsed(Requeued(s.processing[n].content.record, now)), now)],
       processing := s.processing - {n})
  }

  /** The log events of one recovered job. */
  function RecoveredEvents(videoId: string, age: int): seq<LogEvent>
  {
    [LogEvent("warn", "STUCK_JOB_DETECTED", videoId, ProcessingTime(age)),
     LogEvent("info", "JOB_RECOVERED", videoId, Action("moved_to_queue"))]
  }

  /** Requeuing a stale first job leaves a store that still agrees with the
      old one on the rest of the listing. */
  lemma StaleHeadStep(s: Store, now: Time, jobs: seq<string>)
    requires Apart(s)
    requires CleanSweep(s, jobs)
    requires jobs != [] && Stale(s, jobs[0], now)
    ensures var m := Requeue(s, jobs[0], now); var rest := jobs[1..];
      && Apart(m) && CleanSweep(m, rest)
      && (forall i :: 0 <= i < |rest| ==> (Stale(m, rest[i], now) <==> Stale(s, rest[i], now)))
      && StaleCount(m, now, rest) == StaleCount(s, now, rest)
      && (forall name :: Requeues(m, now, rest, name) <==> Requeues(s, now, rest, name))
  {
    var videoId := jobs[0];
    var n := FileName(videoId);
    var rest := jobs[1..];
    var m := Requeue(s, videoId, now);
    forall i | 0 <= i < |rest|
      ensures FileName(rest[i]) in m.processing && m.processing[FileName(rest[i])] == s.processing[FileName(rest[i])]
    {
      assert rest[i] == jobs[i + 1] && jobs[0] != jobs[i + 1];
      if FileName(rest[i]) == n { FileNameInjective(rest[i], videoId); }
    }
    StaleAgree(s, m, now, rest);
    forall i, j | 0 <= i < j < |rest| ensures rest[i] != rest[j] {
      assert rest[i] == jobs[i + 1] && rest[j] == jobs[j + 1];
    }
    assert n !in s.queue;
  }

  /** The step of the staleness rule where the first listed job is stale. */
  lemma {:induction false} StaleHeadRequeued(s: Store, log: seq<LogEvent>, now: Time, jobs: seq<string>)
    requires Apart(s)
    requires CleanSweep(s, jobs)
    requires jobs != [] && Stale(s, jobs[0], now)
    ensures RequeuesExactlyStale(s, log, now, jobs, RecoverFrom(s, log, now, jobs))
    decreases |jobs|, 0
  {
    var videoId := jobs[0];
    var n := FileName(videoId);
    var m := Requeue(s, videoId, now);
    var log1 := log + RecoveredEvents(videoId, now - s.processing[n].ctime);
    MoveToQueueSpec(s, videoId, now);
    assert AfterMoveToQueue(s, videoId, now) == StoreStep(m, Done);
    assert RecoverFrom(s, log, now, jobs) == RecoverFrom(m, log1, now, jobs[1..]);
    StaleHeadStep(s, now, jobs);
    RecoveryRequeuesExactlyStale(m, log1, now, jobs[1..]);
    assert RestAfterHead(s, log, now, jobs, RecoverFrom(m, log1, now, jobs[1..]));
    RequeueTransfer(s, log, now, jobs, RecoverFrom(m, log1, now, jobs[1..]));
  }

  /** After the first, stale, job is requeued, the rest of the sweep from
      the new store behaves as the sweep over the rest from the old one and
      leaves `r`. */
  ghost predicate RestAfterHead(s: Store, log: seq<LogEvent>, now: Time, jobs: seq<string>, r: Sweep)
    requires CleanSweep(s, jobs)
    requires jobs != [] && Stale(s, jobs[0], now)
  {
    var m := Requeue(s, jobs[0], now); var rest := jobs[1..];
    && CleanSweep(m, rest)
    && (forall i :: 0 <= i < |rest| ==> (Stale(m, rest[i], now) <==> Stale(s, rest[i], now)))
    && StaleCount(m, now, rest) == StaleCount(s, now, rest)
    && (forall name :: Requeues(m, now, rest, name) <==> Requeues(s, now, rest, name))
    && RequeuesExactlyStale(m, log + RecoveredEvents(jobs[0], now - s.processing[FileName(jobs[0])].ctime), now, rest, r)
  }

  /** What the sweep over the rest does from the requeued store is what the
      sweep over the whole listing must do from the old one. */
  lemma RequeueTransfer(s: Store, log: seq<LogEvent>, now: Time, jobs: seq<string>, r: Sweep)
    requires Apart(s)
    requires CleanSweep(s, jobs)
    requires jobs != [] && Stale(s, jobs[0], now)
    requires RestAfterHead(s, log, now, jobs, r)
    ensures RequeuesExactlyStale(s, log, now, jobs, r)
  {
    TransferMoved(s, log, now, jobs, r);
    TransferFrames(s, log, now, jobs, r);
  }

  /** Every stale listed job ends in the queue with a fresh record. */
  lemma TransferMoved(s: Store, log: seq<LogEvent>, now: Time, jobs: seq<string>, r: Sweep)
    requires Apart(s)
    requires CleanSweep(s, jobs)
    requires jobs != [] && Stale(s, jobs[0], now)
    requires RestAfterHead(s, log, now, jobs, r)
    ensures forall i :: 0 <= i < |jobs| && Stale(s, jobs[i], now) ==>
      && FileName(jobs[i]) !in r.store.processing && FileName(jobs[i]) in r.store.queue
      && r.store.queue[FileName(jobs[i])] ==
         Entry(Parsed(Requeued(s.processing[FileName(jobs[i])].content.record, now)), now)
  {
    var n := FileName(jobs[0]);
    var rest := jobs[1..];
    var m := Requeue(s, jobs[0], now);
    forall i | 0 <= i < |jobs| && Stale(s, jobs[i], now)
      ensures && FileName(jobs[i]) !in r.store.processing && FileName(jobs[i]) in r.store.queue
              && r.store.queue[FileName(jobs[i])] ==
                 Entry(Parsed(Requeued(s.processing[FileName(jobs[i])].content.record, now)), now)
    {
      if i > 0 {
        assert rest[i - 1] == jobs[i];
        assert Stale(m, rest[i - 1], now);
        assert m.processing[FileName(rest[i - 1])] == s.processing[FileName(jobs[i])];
      } else {
        assert n in m.queue;
        assert n !in m.processing;
      }
    }
  }

  /** Every other file is where it was, and two events per stale job are
      logged. */
  lemma TransferFrames(s: Store, log: seq<LogEvent>, now: Time, jobs: seq<string>, r: Sweep)
    requires Apart(s)
    requires CleanSweep(s, jobs)
    requires jobs != [] && Stale(s, jobs[0], now)
    requires RestAfterHead(s, log, now, jobs, r)
    ensures r.store.completed == s.completed && r.store.failed == s.failed
    ensures forall name :: name in r.store.processing <==> name in s.processing && !Requeues(s, now, jobs, name)
    ensures forall name :: name in r.store.processing ==> r.store.processing[name] == s.processing[name]
    ensures forall name :: name in s.queue ==> name in r.store.queue && r.store.queue[name] == s.queue[name]
    ensures forall name :: name in r.store.queue ==> name in s.queue || Requeues(s, now, jobs, name)
    ensures |r.log| == |log| + 2 * StaleCount(s, now, jobs)
  {
    StaleHeadRequeues(s, now, jobs);
    assert FileName(jobs[0]) !in s.queue;
  }

  /** The stale files a sweep over `jobs` requeues, when the first job is
      stale: its file and those of the rest. */
  lemma StaleHeadRequeues(s: Store, now: Time, jobs: seq<string>)
    requires jobs != [] && Stale(s, jobs[0], now)
    ensures forall name :: Requeues(s, now, jobs, name) <==> name == FileName(jobs[0]) || Requeues(s, now, jobs[1..], name)
    ensures StaleCount(s, now, jobs) == 1 + StaleCount(s, now, jobs[1..])
  {
    var rest := jobs[1..];
    forall name
      ensures Requeues(s, now, jobs, name) <==> name == FileName(jobs[0]) || Requeues(s, now, rest, name)
    {
      if Requeues(s, now, jobs, name) && name != FileName(jobs[0]) {
        var i :| 0 <= i < |jobs| && Stale(s, jobs[i], now) && name == FileName(jobs[i]);
        assert i > 0 && rest[i - 1] == jobs[i];
      }
      if Requeues(s, now, rest, name) {
        var i :| 0 <= i < |rest| && Stale(s, rest[i], now) && name == FileName(rest[i]);
        assert jobs[i + 1] == rest[i];
      }
      if name == FileName(jobs[0]) {
        assert Stale(s, jobs[0], now);
      }
    }
  }

  /** Any error ends the sweep where it happens: a listed id whose file
      `stat` cannot find, or a stuck job whose move to the queue throws, is
      logged as RECOVERY_FAILED with that error's message, and nothing
      listed after it is looked at. */
  lemma RecoveryStopsAtFirstError(s: Store, log: seq<LogEvent>, now: Time, videoId: string, more: seq<string>)
    requires FileName(videoId) !in s.processing
             || (Stale(s, videoId, now) && AfterMoveToQueue(s, videoId, now).outcome.Threw?)
    ensures RecoverFrom(s, log, now, [videoId] + more) == RecoverFrom(s, log, now, [videoId])
    ensures FileName(videoId) !in s.processing ==>
      RecoverFrom(s, log, now, [videoId] + more) ==
      Sweep(s, log + [RecoveryFailed(StatError(FilePath(ProcessingDir, videoId)))])
    ensures FileName(videoId) in s.processing ==>
      var m := AfterMoveToQueue(s, videoId, now);
      RecoverFrom(s, log, now, [videoId] + more) ==
      Sweep(m.store, log + [LogEvent("warn", "STUCK_JOB_DETECTED", videoId,
                                     ProcessingTime(now - s.processing[FileName(videoId)].ctime)),
                            RecoveryFailed(m.outcome.failure.message)])
  {
    assert ([videoId] + more)[0] == videoId;
  }

  /** With every listed stuck file readable and no name repeated or dotted,
      the sweep over what `getActiveJobs` lists is clean, so it moves exactly
      the stale jobs to the queue. */
  lemma RecoveryOfCleanDirectory(s: Store, log: seq<LogEvent>, now: Time)
    requires Apart(s)
    requires forall n :: n in s.processing && EndsWith(n, ".json") ==>
      '.' !in n[..|n| - 5] && s.processing[n].content.Parsed?
    ensures CleanSweep(s, ActiveJobs(Some(ProcessingListing(s))))
    ensures RequeuesExactlyStale(s, log, now, ActiveJobs(Some(ProcessingListing(s))), Recovery(s, log, now))
  {
    var listing := ProcessingListing(s);
    DirOrder.SortedNamesSpec(Names(s, ProcessingDir));
    assert forall i, j :: 0 <= i < j < |listing| ==> listing[i] != listing[j];
    var json := JsonNames(listing);
    var jobs := ActiveJobs(Some(listing));
    ActiveJobsRoundTrip(listing);
    JsonNamesDistinct(listing);
    forall i | 0 <= i < |jobs|
      ensures FileName(jobs[i]) in s.processing && s.processing[FileName(jobs[i])].content.Parsed?
    {
      assert FileName(jobs[i]) == json[i] && json[i] in listing;
    }
    forall i, j | 0 <= i < j < |jobs|
      ensures jobs[i] != jobs[j]
    {
      assert FileName(jobs[i]) == json[i] && FileName(jobs[j]) == json[j];
    }
    RecoveryRequeuesExactlyStale(s, log, now, jobs);
  }

  /** The recovery as written: `this.logEvent` is not defined, so the first
      stuck job (or the first error, whose `catch` calls it too) throws a
      `TypeError` out of `recoverStuckJobs`, with nothing moved. */
  function RecoverAsWritten(s: Store, now: Time, jobs: seq<string>): Outcome
    decreases |jobs|
  {
    if jobs == [] then Done
    else if FileName(jobs[0]) !in s.processing || Stale(s, jobs[0], now) then
      Threw(Failure("TypeError", "this.logEvent is not a function", None))
    else RecoverAsWritten(s, now, jobs[1..])
  }

  /** As written, recovery never recovers: with any stuck job listed, the
      sweep throws the `TypeError` (so `startProcessing` clears its flag and
      rejects before its loop starts) and the stuck job stays in processing. */
  lemma {:induction false} AsWrittenRecoveryNeverRecovers(s: Store, now: Time, jobs: seq<string>, k: nat)
    requires k < |jobs| && Stale(s, jobs[k], now)
    ensures RecoverAsWritten(s, now, jobs) == Threw(Failure("TypeError", "this.logEvent is not a function", None))
    decreases k
  {
    if k > 0 && FileName(jobs[0]) in s.processing && !Stale(s, jobs[0], now) {
      AsWrittenRecoveryNeverRecovers(s, now, jobs[1..], k - 1);
    }
  }

  /** As written, a sweep that does not throw found nothing missing and
      nothing stuck, so it is the sweep that `logEvent` would have made. */
  lemma {:induction false} AsWrittenAgreesWhenNothingStuck(s: Store, log: seq<LogEvent>, now: Time, jobs: seq<string>)
    requires RecoverAsWritten(s, now, jobs).Done?
    ensures forall i :: 0 <= i < |jobs| ==> FileName(jobs[i]) in s.processing && !Stale(s, jobs[i], now)
    ensures RecoverFrom(s, log, now, jobs) == Sweep(s, log)
    decreases |jobs|
  {
    if jobs != [] {
      AsWrittenAgreesWhenNothingStuck(s, log, now, jobs[1..]);
      forall i | 1 <= i < |jobs|
        ensures FileName(jobs[i]) in s.processing && !Stale(s, jobs[i], now)
      {
        assert jobs[i] == jobs[1..][i - 1];
      }
    }
  }

  /** As written, one stuck processing file `<id>.json` (a dot-free id) makes
      every `startProcessing` throw from its recovery. */
  lemma StaleFileRejectsStart(s: Store, now: Time, videoId: string)
    requires '.' !in videoId && Stale(s, videoId, now)
    ensures RecoverAsWritten(s, now, ActiveJobs(Some(ProcessingListing(s)))) ==
      Threw(Failure("TypeError", "this.logEvent is not a function", None))
  {
    var listing := ProcessingListing(s);
    var f := FileName(videoId);
    DirOrder.SortedNamesSpec(Names(s, ProcessingDir));
    assert f in listing;
    assert f[..|f| - 5] == videoId;
    var json := JsonNames(listing);
    var jobs := ActiveJobs(Some(listing));
    var k :| 0 <= k < |json| && json[k] == f;
    StripJsonRoundTrip(f);
    FileNameInjective(StripJson(f), videoId);
    assert jobs[k] == videoId;
    AsWrittenRecoveryNeverRecovers(s, now, jobs, k);
  }

  // ---------------------------------------------------------------------------
  // The service

  class QueueService {
    const config: QueueConfig
    const testOutput: TestOutputService
    var isProcessing: bool
    /** What `Date.now()` reads; `sleep` advances it. */
    var clock: Time
    /** The events `logEvent` has recorded. */
    var log: seq<LogEvent>

    ghost predicate Valid()
      reads this, testOutput
    {
      testOutput.Valid()
    }

    /** `new QueueService(config)` over directories holding `disk`. */
    constructor (config: QueueConfig, disk: Store, now: Time)
      ensures Valid() && fresh(testOutput)
      ensures this.config == config && testOutput.store == disk && clock == now
      ensures !isProcessing && log == []
    {
      this.config := config;
      testOutput := new TestOutputService(disk);
      isProcessing := false;
      clock := now;
      log := [];
    }

    method Sleep(ms: nat)
      modifies this`clock
      ensures clock == old(clock) + ms
    {
      clock := clock + ms;
    }

    method Log(e: LogEvent)
      modifies this`log
      ensures log == old(log) + [e]
    {
      log := log + [e];
    }

    /** `stopProcessing()` */
    method StopProcessing()
      modifies this`isProcessing
      ensures !isProcessing
    {
      isProcessing := false;
    }

    /** `processVideo(videoId)` */
    method ProcessVideo(videoId: string, fault: Option<StepFault>) returns (outcome: Outcome)
      requires Valid()
      modifies this`clock, testOutput
      ensures Valid()
      ensures Run(testOutput.store, clock, outcome) == StepsFrom(old(testOutput.store), videoId, old(clock), fault, 0)
    {
      ghost var goal := StepsFrom(testOutput.store, videoId, clock, fault, 0);
      var completedWeight := 0;
      for k := 0 to |Steps|
        invariant Valid()
        invariant completedWeight == WeightBefore(k)
        invariant goal == StepsFrom(testOutput.store, videoId, clock, fault, k)
      {
        outcome, completedWeight := RunStep(videoId, fault, k, completedWeight);
        if outcome.Threw? {
          return;
        }
      }
      return Done;
    }

    /** One pass of the loop in `processVideo`: sleep a second, add the
        step's weight, write the progress. What is left of the steps is
        then either the error that ended them or the steps from `k + 1`. */
    method RunStep(videoId: string, fault: Option<StepFault>, k: nat, completedWeight: int)
      returns (outcome: Outcome, weight: int)
      requires Valid() && k < |Steps| && completedWeight == WeightBefore(k)
      modifies this`clock, testOutput
      ensures Valid() && weight == WeightBefore(k + 1)
      ensures var rest := StepsFrom(old(testOutput.store), videoId, old(clock), fault, k);
        && (outcome.Threw? ==> rest == Run(testOutput.store, clock, outcome))
        && (outcome.Done? ==> rest == StepsFrom(testOutput.store, videoId, clock, fault, k + 1))
    {
      ghost var before := testOutput.store;
      Sleep(1000);
      var step := Steps[k];
      weight := completedWeight + step.weight;
      var progress := weight;
      var update := ProgressUpdate(progress, step.name, "Processing: " + step.name);
      assert update == StepUpdate(k);
      outcome := testOutput.UpdateProgress(videoId, update, clock, FaultAt(fault, k));
      StepUnfold(before, videoId, clock - 1000, fault, k);
    }

    /** The `try` block of `processJob`. */
    method TryJob(videoId: string, fault: Option<StepFault>) returns (outcome: Outcome)
      requires Valid()
      modifies this`clock, testOutput
      ensures Valid()
      ensures Run(testOutput.store, clock, outcome) == Attempt(old(testOutput.store), old(clock), videoId, fault)
    {
      ghost var s0 := testOutput.store;
      ghost var c0 := clock;
      outcome := testOutput.MoveToProcessing(videoId, 0, clock);
      if outcome.Threw? {
        return;
      }
      ghost var s1 := testOutput.store;
      outcome := ProcessVideo(videoId, fault);
      if outcome.Threw? {
        AttemptAtSteps(s0, s1, c0, videoId, fault);
        return;
      }
      ghost var s2 := testOutput.store;
      outcome := testOutput.MarkAsCompleted(videoId, StubResult, clock, FaultAt(fault, |Steps|));
      AttemptThrough(s0, s1, s2, c0, clock, videoId, fault);
    }

    /** `processJob(videoId, attempt)` */
    method ProcessJob(videoId: string, attempt: int, fault: Option<StepFault>) returns (outcome: Outcome)
      requires Valid()
      modifies this`clock, testOutput
      ensures Valid()
      ensures Run(testOutput.store, clock, outcome) == JobRun(config, old(testOutput.store), old(clock), videoId, attempt, fault)
      decreases config.retryAttempts - attempt
    {
      ghost var s0 := testOutput.store;
      ghost var c0 := clock;
      outcome := TryJob(videoId, fault);
      if outcome.Done? {
        JobRunDone(config, s0, c0, videoId, attempt, fault);
        return;
      }
      var error := outcome.failure;
      if attempt < config.retryAttempts {
        JobRunRetries(config, s0, c0, videoId, attempt, fault);
        Sleep(config.retryDelay);
        outcome := ProcessJob(videoId, attempt + 1, fault);
        return;
      }
      JobRunGivesUp(config, s0, c0, videoId, attempt, fault);
      outcome := testOutput.MarkAsFailed(videoId, ErrorInfo(error.name, error.message), clock);
    }

    /** `recoverStuckJobs()` with `logEvent` defined: the loop over the
      listed processing jobs, ended by the first error. */
    method RecoverStuckJobs()
      requires Valid()
      modifies this`log, testOutput
      ensures Valid()
      ensures Sweep(testOutput.store, log) == Recovery(old(testOutput.store), old(log), clock)
    {
      var processingJobs := ActiveJobs(Some(ProcessingListing(testOutput.store)));
      SweepJobs(processingJobs);
    }

    /** The loop of `recoverStuckJobs` over the listed job ids. */
    method SweepJobs(processingJobs: seq<string>)
      requires Valid()
      modifies this`log, testOutput
      ensures Valid()
      ensures Sweep(testOutput.store, log) == RecoverFrom(old(testOutput.store), old(log), clock, processingJobs)
    {
      ghost var goal := RecoverFrom(testOutput.store, log, clock, processingJobs);
      for i := 0 to |processingJobs|
        invariant Valid()
        invariant goal == RecoverFrom(testOutput.store, log, clock, processingJobs[i..])
      {
        var videoId := processingJobs[i];
        if FileName(videoId) !in testOutput.store.processing {
          SweepStatFails(testOutput.store, log, clock, processingJobs, i);
          Log(RecoveryFailed(StatError(FilePath(ProcessingDir, videoId))));
          return;
        }
        var ctime := testOutput.store.processing[FileName(videoId)].ctime;
        if clock - ctime > StaleAfter {
          var detected := LogEvent("warn", "STUCK_JOB_DETECTED", videoId, ProcessingTime(clock - ctime));
          SweepRequeues(testOutput.store, log, clock, processingJobs, i, log + [detected]);
          Log(detected);
          var moved := testOutput.MoveToQueue(videoId, clock);
          if moved.Threw? {
            Log(RecoveryFailed(moved.failure.message));
            return;
          }
          Log(LogEvent("info", "JOB_RECOVERED", videoId, Action("moved_to_queue")));
        } else {
          SweepSkips(testOutput.store, log, clock, processingJobs, i);
        }
      }
      assert processingJobs[|processingJobs|..] == [];
    }

    /** One pass of the dispatch loop. */
    method Tick(faults: map<string, StepFault>) returns (dispatched: Option<string>)
      requires Valid()
      modifies this`clock, testOutput
      ensures Valid()
      ensures TickResult(testOutput.store, clock, dispatched) == TickStep(config, old(testOutput.store), old(clock), faults)
    {
      var activeJobs := ActiveJobs(Some(ProcessingListing(testOutput.store)));
      if |activeJobs| < config.maxConcurrent {
        var nextJob := NextQueuedJob(Some(QueueStats(testOutput.store)));
        if nextJob.Some? {
          var _ := ProcessJob(nextJob.value, 1, FaultFor(faults, nextJob.value));
          return nextJob;
        }
        Sleep(config.pollInterval);
        return None;
      }
      Sleep(config.pollInterval);
      return None;
    }

    /** `startProcessing()`, with `stopProcessing()` called once `stopAfter`
        passes of the loop (at least one) have run. */
    method StartProcessing(stopAfter: nat, faults: map<string, StepFault>) returns (outcome: Outcome)
      requires Valid()
      modifies this`isProcessing, this`clock, this`log, testOutput
      ensures Valid() && outcome.Done?
      ensures old(isProcessing) ==>
        isProcessing && testOutput.store == old(testOutput.store) && clock == old(clock) && log == old(log)
      ensures !old(isProcessing) ==>
        var swept := Recovery(old(testOutput.store), old(log), old(clock));
        var ticked := Ticks(config, swept.store, old(clock), if stopAfter == 0 then 1 else stopAfter, faults);
        && !isProcessing && log == swept.log
        && testOutput.store == ticked.store && clock == ticked.clock
    {
      if isProcessing {
        return Done;
      }
      isProcessing := true;
      RecoverStuckJobs();
      RunLoop(stopAfter, faults);
      return Done;
    }

    /** `startProcessing()` as written, with `this.logEvent` undefined: the
        recovery throws at its first missing or stuck job, and the `catch`
        clears the flag and rethrows before the dispatch loop starts. */
    method StartProcessingAsWritten(stopAfter: nat, faults: map<string, StepFault>) returns (outcome: Outcome)
      requires Valid()
      modifies this`isProcessing, this`clock, testOutput
      ensures Valid()
      ensures old(isProcessing) ==>
        outcome.Done? && isProcessing && testOutput.store == old(testOutput.store) && clock == old(clock)
      ensures !old(isProcessing) ==>
        var swept := RecoverAsWritten(old(testOutput.store), old(clock), ActiveJobs(Some(ProcessingListing(old(testOutput.store)))));
        var ticked := Ticks(config, old(testOutput.store), old(clock), if stopAfter == 0 then 1 else stopAfter, faults);
        && outcome == swept && !isProcessing
        && (swept.Threw? ==> testOutput.store == old(testOutput.store) && clock == old(clock))
        && (swept.Done? ==> testOutput.store == ticked.store && clock == ticked.clock)
    {
      if isProcessing {
        return Done;
      }
      isProcessing := true;
      var processingJobs := ActiveJobs(Some(ProcessingListing(testOutput.store)));
      outcome := SweepJobsAsWritten(processingJobs);
      if outcome.Threw? {
        isProcessing := false;
        return;
      }
      RunLoop(stopAfter, faults);
    }

    /** The loop of `recoverStuckJobs` as written: the first `logEvent`
        call, at a missing or a stuck job, throws. */
    method SweepJobsAsWritten(processingJobs: seq<string>) returns (outcome: Outcome)
      ensures outcome == RecoverAsWritten(testOutput.store, clock, processingJobs)
    {
      for i := 0 to |processingJobs|
        invariant RecoverAsWritten(testOutput.store, clock, processingJobs) ==
          RecoverAsWritten(testOutput.store, clock, processingJobs[i..])
      {
        var videoId := processingJobs[i];
        assert processingJobs[i..][0] == videoId && processingJobs[i..][1..] == processingJobs[i + 1..];
        if FileName(videoId) !in testOutput.store.processing {
          return Threw(Failure("TypeError", "this.logEvent is not a function", None));
        }
        var ctime := testOutput.store.processing[FileName(videoId)].ctime;
        if clock - ctime > StaleAfter {
          return Threw(Failure("TypeError", "this.logEvent is not a function", None));
        }
      }
      assert processingJobs[|processingJobs|..] == [];
      return Done;
    }

    /** The `while (this.isProcessing)` loop. */
    method RunLoop(stopAfter: nat, faults: map<string, StepFault>)
      requires Valid() && isProcessing
      modifies this`isProcessing, this`clock, testOutput
      ensures Valid() && !isProcessing
      ensures var ticked := Ticks(config, old(testOutput.store), old(clock), if stopAfter == 0 then 1 else stopAfter, faults);
        testOutput.store == ticked.store && clock == ticked.clock
    {
      ghost var total := if stopAfter == 0 then 1 else stopAfter;
      ghost var goal := Ticks(config, testOutput.store, clock, total, faults);
      var ticks := 0;
      while isProcessing
        invariant Valid()
        invariant 0 <= ticks <= total
        invariant isProcessing ==> ticks < total
        invariant !isProcessing ==> ticks == total
        invariant goal == Ticks(config, testOutput.store, clock, total - ticks, faults)
        decreases total - ticks
      {
        TicksUnfold(config, testOutput.store, clock, total - ticks, faults);
        var _ := Tick(faults);
        ticks := ticks + 1;
        if ticks >= stopAfter {
          StopProcessing();
        }
      }
    }
  }
}
