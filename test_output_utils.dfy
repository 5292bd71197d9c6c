/** The helpers of server/src/utils/testOutputUtils.ts: the status type
    guards, the elapsed time (with `Date.now()` as the parameter `now`) and
    the one-line texts the dashboard shows for a record. */
module OutputFormat {
  import opened Common
  import opened TestOutput
  import OutputStore

  predicate IsQueued(d: TestOutputRecord) { StatusOf(d) == Queued }
  predicate IsProcessing(d: TestOutputRecord) { StatusOf(d) == Processing }
  predicate IsCompleted(d: TestOutputRecord) { StatusOf(d) == Completed }
  predicate IsFailed(d: TestOutputRecord) { StatusOf(d) == Failed }

  /** Exactly one type guard holds for any record, and it is the one of
      the record's own variant. */
  lemma ExactlyOneGuard(d: TestOutputRecord)
    ensures (if IsQueued(d) then 1 else 0) + (if IsProcessing(d) then 1 else 0)
          + (if IsCompleted(d) then 1 else 0) + (if IsFailed(d) then 1 else 0) == 1
    ensures IsQueued(d) <==> d.QueuedRecord?
    ensures IsProcessing(d) <==> d.ProcessingRecord?
    ensures IsCompleted(d) <==> d.CompletedRecord?
    ensures IsFailed(d) <==> d.FailedRecord?
  {
  }

  /** The timestamp `getElapsedTime` measures from: the one the record's
      status names. */
  function StartTime(d: TestOutputRecord): Time
  {
    if IsQueued(d) then d.queued.queuedAt
    else if IsProcessing(d) then d.processing.startedAt
    else if IsCompleted(d) then d.completed.completedAt
    else d.failed.failedAt
  }

  /** `getElapsedTime(data)` at time `now`. */
  function ElapsedTime(d: TestOutputRecord, now: Time): int
  {
    now - StartTime(d)
  }

  /** The elapsed time runs with the clock, and a record the store has just
      written (claimed, requeued, completed or failed at `now`) has none. */
  lemma ElapsedTimeOfFreshRecords(d: TestOutputRecord, now: Time, k: int, q: QueuedOutput, p: ProcessingOutput,
                                  result: AnalysisResult, error: ErrorInfo)
    ensures ElapsedTime(d, now + k) == ElapsedTime(d, now) + k
    ensures ElapsedTime(ProcessingRecord(OutputStore.Claimed(q, now, 0)), now) == 0
    ensures ElapsedTime(QueuedRecord(OutputStore.Requeued(p, now)), now) == 0
    ensures ElapsedTime(CompletedRecord(CompletedOutput(p, now, result)), now) == 0
    ensures ElapsedTime(FailedRecord(FailedOutput(p, now, error)), now) == 0
    ensures ElapsedTime(ProcessingRecord(p), now) == now - p.startedAt
  {
  }

  /** `data.currentStep || 'Processing'` */
  function StepText(p: ProcessingOutput): string
  {
    if p.currentStep.Some? && p.currentStep.value != "" then p.currentStep.value else "Processing"
  }

  /** `formatProgress(data)` */
  function FormatProgress(p: ProcessingOutput): string
  {
    IntToString(p.progress) + "% - " + StepText(p)
  }

  lemma NoPercentInNumber(i: int)
    ensures '%' !in IntToString(i)
  {
    if i < 0 {
      assert IntToString(i) == "-" + NatToString(-i);
      assert forall c :: c in NatToString(-i) ==> IsDigit(c);
    } else {
      assert forall c :: c in NatToString(i) ==> IsDigit(c);
    }
  }

  /** The progress text reads back: the number before the first "% - " is
      the progress, and what follows it is the step, or "Processing" when
      the record names none. */
  lemma FormatProgressParts(p: ProcessingOutput)
    ensures var t := FormatProgress(p); var k := |IntToString(p.progress)|;
      && IndexOf(t, "% - ") == Some(k)
      && t[..k] == IntToString(p.progress)
      && t[k + 4..] == StepText(p)
      && (p.currentStep.None? ==> t[k + 4..] == "Processing")
  {
    var t := FormatProgress(p);
    var n := IntToString(p.progress);
    var k := |n|;
    NoPercentInNumber(p.progress);
    assert OccursAt(t, "% - ", k);
    forall j | 0 <= j < k ensures !OccursAt(t, "% - ", j) {
      assert t[j] == n[j];
    }
    assert t[..k] == n;
    assert t[k + 4..] == StepText(p);
  }

  /** `formatError(data)` */
  function FormatError(f: FailedOutput): string
  {
    f.error.code + ": " + f.error.message
  }

  /** The error text reads back when the code has no colon (the codes the
      runner records are identifiers): the code before the first ": ", the
      message after it. */
  lemma FormatErrorParts(f: FailedOutput)
    requires ':' !in f.error.code
    ensures var t := FormatError(f); var k := |f.error.code|;
      && IndexOf(t, ": ") == Some(k)
      && t[..k] == f.error.code
      && t[k + 2..] == f.error.message
  {
    var t := FormatError(f);
    var k := |f.error.code|;
    assert OccursAt(t, ": ", k);
    forall j | 0 <= j < k ensures !OccursAt(t, ": ", j) {
      assert t[j] == f.error.code[j];
    }
    assert t[..k] == f.error.code;
    assert t[k + 2..] == f.error.message;
  }

  /** `s.substring(0, n)`: the first `n` UTF-16 code units, as whole
      characters. */
  function Utf16Prefix(s: string, n: nat): string
    decreases |s|
  {
    if s == [] then []
    else
      var w := if s[0] as int < 0x1_0000 then 1 else 2;
      if w > n then [] else [s[0]] + Utf16Prefix(s[1..], n - w)
  }

  /** The prefix is a run of leading characters that fits in `n` code
      units. */
  lemma {:induction false} Utf16PrefixFits(s: string, n: nat)
    ensures Utf16Prefix(s, n) <= s
    ensures Utf16Length(Utf16Prefix(s, n)) <= n
    decreases |s|
  {
    if s != [] {
      var w := if s[0] as int < 0x1_0000 then 1 else 2;
      if w <= n {
        var rest := Utf16Prefix(s[1..], n - w);
        Utf16PrefixFits(s[1..], n - w);
        var p := [s[0]] + rest;
        assert Utf16Prefix(s, n) == p;
        assert p[1..] == rest;
        assert Utf16Length(p) == w + Utf16Length(rest);
      }
    }
  }

  /** ... and the longest one: one more character would not fit. */
  lemma {:induction false} Utf16PrefixLongest(s: string, n: nat)
    ensures |Utf16Prefix(s, n)| < |s| ==> Utf16Length(s[..|Utf16Prefix(s, n)| + 1]) > n
    decreases |s|
  {
    if s != [] {
      var w := if s[0] as int < 0x1_0000 then 1 else 2;
      if w > n {
        assert Utf16Prefix(s, n) == [];
        assert s[..1][1..] == [];
        assert Utf16Length(s[..1]) == w + Utf16Length(s[..1][1..]);
      } else {
        var rest := Utf16Prefix(s[1..], n - w);
        Utf16PrefixLongest(s[1..], n - w);
        assert |Utf16Prefix(s, n)| == |rest| + 1;
        if |rest| < |s[1..]| {
          var q := s[..|rest| + 2];
          assert q[1..] == s[1..][..|rest| + 1];
          assert Utf16Length(q[1..]) > n - w;
          assert Utf16Length(q) == w + Utf16Length(q[1..]);
        }
      }
    }
  }

  /** A summary of at most `n` UTF-16 code units is kept whole. */
  lemma {:induction false} Utf16PrefixOfShort(s: string, n: nat)
    requires Utf16Length(s) <= n
    ensures Utf16Prefix(s, n) == s
    decreases |s|
  {
    if s != [] {
      var w := if s[0] as int < 0x1_0000 then 1 else 2;
      var rest := s[1..];
      assert Utf16Length(s) == w + Utf16Length(rest);
      assert w <= n;
      Utf16PrefixOfShort(rest, n - w);
      assert Utf16Prefix(s, n) == [s[0]] + rest;
      assert s == [s[0]] + rest;
    }
  }

  /** With no character outside the Basic Multilingual Plane the prefix is
      exactly the first `n` characters. */
  lemma {:induction false} Utf16PrefixOfBmp(s: string, n: nat)
    requires forall i :: 0 <= i < |s| ==> s[i] as int < 0x1_0000
    ensures Utf16Prefix(s, n) == s[..if |s| < n then |s| else n]
    decreases |s|
  {
    if s != [] && n > 0 {
      assert forall i :: 0 <= i < |s[1..]| ==> s[1..][i] as int < 0x1_0000 by {
        forall i | 0 <= i < |s[1..]| ensures s[1..][i] == s[i + 1] { }
      }
      Utf16PrefixOfBmp(s[1..], n - 1);
      var m := if |s| < n then |s| else n;
      assert s[..m] == [s[0]] + s[1..][..m - 1];
    }
  }

  /** `getSummary(data)`; `toLocale` renders a timestamp as
      `toLocaleString` does. */
  function Summary(d: TestOutputRecord, toLocale: Time -> string): string
  {
    if IsQueued(d) then "Queued at " + toLocale(d.queued.queuedAt)
    else if IsProcessing(d) then FormatProgress(d.processing)
    else if IsCompleted(d) then "Completed: " + Utf16Prefix(d.completed.result.summary, 100) + "..."
    else if IsFailed(d) then FormatError(d.failed)
    else "Unknown state"
  }

  /** The summary of each status: the queue time, the progress text or the
      error text. */
  lemma SummaryCases(d: TestOutputRecord, toLocale: Time -> string)
    ensures d.ProcessingRecord? ==> Summary(d, toLocale) == FormatProgress(d.processing)
    ensures d.FailedRecord? ==> Summary(d, toLocale) == FormatError(d.failed)
    ensures d.QueuedRecord? ==> Summary(d, toLocale) == "Queued at " + toLocale(d.queued.queuedAt)
  {
  }

  /** A completed record shows "Completed: ", then at most 100 UTF-16 code
      units from the start of the analysis summary (all of it when it fits),
      then "...". */
  lemma CompletedSummary(c: CompletedOutput, toLocale: Time -> string)
    ensures var t := Summary(CompletedRecord(c), toLocale); var s := c.result.summary;
      && StartsWith(t, "Completed: ") && EndsWith(t, "...")
      && t[11..|t| - 3] <= s && Utf16Length(t[11..|t| - 3]) <= 100
      && (Utf16Length(s) <= 100 ==> t == "Completed: " + s + "...")
  {
    var s := c.result.summary;
    var p := Utf16Prefix(s, 100);
    Utf16PrefixFits(s, 100);
    var t := Summary(CompletedRecord(c), toLocale);
    assert t == "Completed: " + p + "...";
    assert t[11..|t| - 3] == p;
    if Utf16Length(s) <= 100 {
      Utf16PrefixOfShort(s, 100);
    }
  }

  /** No record reaches the "Unknown state" fallback. */
  lemma SummaryIsNeverUnknown(d: TestOutputRecord, toLocale: Time -> string)
    ensures Summary(d, toLocale) != "Unknown state"
  {
    match d
    case QueuedRecord(q) =>
      var t := "Queued at " + toLocale(q.queuedAt);
      assert Summary(d, toLocale) == t;
      assert t[0] != "Unknown state"[0];
    case CompletedRecord(c) =>
      var t := "Completed: " + Utf16Prefix(c.result.summary, 100) + "...";
      assert Summary(d, toLocale) == t;
      assert t[0] != "Unknown state"[0];
    case ProcessingRecord(p) =>
      assert Summary(d, toLocale) == FormatProgress(p);
      ProgressIsKnown(p);
    case FailedRecord(f) =>
      assert Summary(d, toLocale) == FormatError(f);
      ErrorIsKnown(f);
  }

  lemma ProgressIsKnown(p: ProcessingOutput)
    ensures FormatProgress(p) != "Unknown state"
  {
    FormatProgressParts(p);
    assert FormatProgress(p)[|IntToString(p.progress)|] == '%';
    assert '%' !in "Unknown state";
  }

  lemma ErrorIsKnown(f: FailedOutput)
    ensures FormatError(f) != "Unknown state"
  {
    assert FormatError(f)[|f.error.code|] == ':';
    assert ':' !in "Unknown state";
  }
}
