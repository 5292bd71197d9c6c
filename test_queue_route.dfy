/** The status lookup of server/src/routes/testQueue.ts
    (`GET /test-queue/status/:videoId`): the first directory, in the order
    queue, processing, completed, failed, whose `<videoId>.json` can be read
    and parsed answers the request. */
module StatusLookup {
  import opened Common
  import opened JsValue
  import opened TestOutput
  import opened OutputStore
  import Video

  /** An `AppError`: the message, `statusCode` and the optional `status`. */
  datatype AppError = AppError(message: string, statusCode: int, status: Option<string>)

  /** `res.sendSuccess(record)`, or the error the handler throws. */
  datatype Response = Success(record: TestOutputRecord) | Refused(error: AppError)

  const InvalidVideoId := AppError("Invalid video ID", 400, Some("validation_error"))
  const NotFound := AppError("Video not found", 404, None)

  /** `JSON.parse(await fs.readFile(...))` in one directory: the record, or
      nothing when the file is missing or cannot be read or parsed. */
  function ReadRecord(s: Store, p: Partition, name: string): Option<TestOutputRecord>
  {
    match p
    case QueueDir =>
      if name in s.queue && s.queue[name].content.Parsed? then Some(QueuedRecord(s.queue[name].content.record)) else None
    case ProcessingDir =>
      if name in s.processing && s.processing[name].content.Parsed?
      then Some(ProcessingRecord(s.processing[name].content.record)) else None
    case CompletedDir =>
      if name in s.completed && s.completed[name].content.Parsed?
      then Some(CompletedRecord(s.completed[name].content.record)) else None
    case FailedDir =>
      if name in s.failed && s.failed[name].content.Parsed? then Some(FailedRecord(s.failed[name].content.record)) else None
  }

  /** The first of `dirs` that yields a record. */
  function FirstReadable(s: Store, name: string, dirs: seq<Partition>): Option<TestOutputRecord>
    decreases |dirs|
  {
    if dirs == [] then None
    else if ReadRecord(s, dirs[0], name).Some? then ReadRecord(s, dirs[0], name)
    else FirstReadable(s, name, dirs[1..])
  }

  /** The handler's answer for the route parameters `params`. */
  function StatusResponse(s: Store, params: Value): Response
  {
    match Video.ParseVideoParams(params)
    case Invalid(_) => Refused(InvalidVideoId)
    case Valid(videoId) =>
      match FirstReadable(s, FileName(videoId), AllPartitions)
      case Some(r) => Success(r)
      case None => Refused(NotFound)
  }

  /** The handler: parse the parameters, then the `for` loop over the four
      directories, returning on the first record and going on past any
      read or parse failure. */
  method GetStatus(s: Store, params: Value) returns (response: Response)
    ensures response == StatusResponse(s, params)
  {
    var parsed := Video.ParseVideoParams(params);
    if parsed.Invalid? {
      return Refused(InvalidVideoId);
    }
    var name := FileName(parsed.value);
    var dirs := AllPartitions;
    for i := 0 to |dirs|
      invariant FirstReadable(s, name, AllPartitions) == FirstReadable(s, name, dirs[i..])
    {
      assert dirs[i..][1..] == dirs[i + 1..];
      var data := ReadRecord(s, dirs[i], name);
      if data.Some? {
        return Success(data.value);
      }
    }
    return Refused(NotFound);
  }

  /** `FirstReadable` finds the record of the first directory that yields
      one, and nothing exactly when none does. */
  lemma {:induction false} FirstReadableIsFirst(s: Store, name: string, dirs: seq<Partition>)
    ensures FirstReadable(s, name, dirs).None? <==> forall i :: 0 <= i < |dirs| ==> ReadRecord(s, dirs[i], name).None?
    ensures FirstReadable(s, name, dirs).Some? ==>
      exists i :: 0 <= i < |dirs| && ReadRecord(s, dirs[i], name) == FirstReadable(s, name, dirs)
        && forall j :: 0 <= j < i ==> ReadRecord(s, dirs[j], name).None?
    decreases |dirs|
  {
    if dirs != [] {
      FirstReadableIsFirst(s, name, dirs[1..]);
      if ReadRecord(s, dirs[0], name).None? {
        forall i | 0 <= i < |dirs[1..]| ensures dirs[1..][i] == dirs[i + 1] { }
        if FirstReadable(s, name, dirs).Some? {
          var k :| 0 <= k < |dirs[1..]| && ReadRecord(s, dirs[1..][k], name) == FirstReadable(s, name, dirs[1..])
            && forall j :: 0 <= j < k ==> ReadRecord(s, dirs[1..][j], name).None?;
          assert ReadRecord(s, dirs[k + 1], name) == FirstReadable(s, name, dirs);
          forall j | 0 <= j < k + 1 ensures ReadRecord(s, dirs[j], name).None? {
            if j > 0 { assert dirs[j] == dirs[1..][j - 1]; }
          }
        }
      }
    }
  }

  /** What the route answers: 400 `validation_error` for a missing or empty
      id; otherwise the record of the first directory, in the order queue,
      processing, completed, failed, whose file is readable; 404 "Video not
      found" when none is. */
  lemma StatusResponseSpec(s: Store, params: Value)
    ensures var r := StatusResponse(s, params);
      && (r == Refused(InvalidVideoId) <==>
            !(params.Obj? && Get(params, "videoId").Str? && Get(params, "videoId").s != ""))
      && (Video.ParseVideoParams(params).Valid? ==>
            var name := FileName(Get(params, "videoId").s);
            && (r == Refused(NotFound) <==> forall i :: 0 <= i < 4 ==> ReadRecord(s, AllPartitions[i], name).None?)
            && (r.Success? ==>
                  exists i :: 0 <= i < 4 && ReadRecord(s, AllPartitions[i], name) == Some(r.record)
                    && forall j :: 0 <= j < i ==> ReadRecord(s, AllPartitions[j], name).None?))
  {
    if Video.ParseVideoParams(params).Valid? {
      FirstReadableIsFirst(s, FileName(Get(params, "videoId").s), AllPartitions);
    }
  }

  /** A file that cannot be read or parsed counts as absent: dropping it
      from its directory does not change the answer. */
  lemma UnreadableCountsAsAbsent(s: Store, params: Value, name: string)
    requires name in s.processing && s.processing[name].content.Unreadable?
    ensures StatusResponse(s, params) == StatusResponse(s.(processing := s.processing - {name}), params)
  {
    var t := s.(processing := s.processing - {name});
    forall p: Partition, n: string ensures ReadRecord(s, p, n) == ReadRecord(t, p, n) { }
    forall n: string ensures FirstReadable(s, n, AllPartitions) == FirstReadable(t, n, AllPartitions) {
      SameReadsSameFirst(s, t, n, AllPartitions);
    }
  }

  lemma {:induction false} SameReadsSameFirst(s: Store, t: Store, name: string, dirs: seq<Partition>)
    requires forall p :: ReadRecord(s, p, name) == ReadRecord(t, p, name)
    ensures FirstReadable(s, name, dirs) == FirstReadable(t, name, dirs)
    decreases |dirs|
  {
    if dirs != [] {
      SameReadsSameFirst(s, t, name, dirs[1..]);
    }
  }

  /** Under the store's own invariant (no file name in two directories) the
      answer is the record of the directory that holds the file, whichever
      it is. */
  lemma LookupFindsTheHolder(s: Store, videoId: string, p: Partition)
    requires Apart(s) && videoId != ""
    requires ReadRecord(s, p, FileName(videoId)).Some?
    ensures StatusResponse(s, Obj(map["videoId" := Str(videoId)])) == Success(ReadRecord(s, p, FileName(videoId)).value)
  {
    var n := FileName(videoId);
    assert Get(Obj(map["videoId" := Str(videoId)]), "videoId") == Str(videoId);
    assert Utf16Length(videoId) >= 1;
  }
}
