/** The video status enumeration and the two request schemas of
    server/src/types/video.ts, as zod parses them. */
module Video {
  import opened Common
  import opened JsValue

  /** The seven statuses of `VideoStatusSchema`, in declaration order. */
  datatype VideoStatus = Queued | Processing | Stalled | Failed | Completed | Archived | Deleted

  const AllStatuses: seq<VideoStatus> :=
    [Queued, Processing, Stalled, Failed, Completed, Archived, Deleted]

  function StatusName(s: VideoStatus): string
  {
    match s
    case Queued => "queued"
    case Processing => "processing"
    case Stalled => "stalled"
    case Failed => "failed"
    case Completed => "completed"
    case Archived => "archived"
    case Deleted => "deleted"
  }

  /** `VideoStatusSchema.safeParse(name)`: the status whose name is exactly `name`. */
  function ParseStatus(name: string): (r: Option<VideoStatus>)
    ensures r.Some? ==> StatusName(r.value) == name
    ensures r.None? ==> forall s :: StatusName(s) != name
  {
    if name == "queued" then Some(Queued)
    else if name == "processing" then Some(Processing)
    else if name == "stalled" then Some(Stalled)
    else if name == "failed" then Some(Failed)
    else if name == "completed" then Some(Completed)
    else if name == "archived" then Some(Archived)
    else if name == "deleted" then Some(Deleted)
    else None
  }

  /** There are exactly seven statuses, each listed once, and their names are
      pairwise different, so every name parses back to its status. */
  lemma ExactlySevenStatuses()
    ensures |AllStatuses| == 7
    ensures forall s :: s in AllStatuses
    ensures forall i, j :: 0 <= i < j < |AllStatuses| ==> AllStatuses[i] != AllStatuses[j]
    ensures forall s, t :: StatusName(s) == StatusName(t) ==> s == t
    ensures forall s :: ParseStatus(StatusName(s)) == Some(s)
  {
    forall s: VideoStatus ensures s in AllStatuses {
      match s
      case Queued => assert AllStatuses[0] == s;
      case Processing => assert AllStatuses[1] == s;
      case Stalled => assert AllStatuses[2] == s;
      case Failed => assert AllStatuses[3] == s;
      case Completed => assert AllStatuses[4] == s;
      case Archived => assert AllStatuses[5] == s;
      case Deleted => assert AllStatuses[6] == s;
    }
  }

  lemma StatusNameInjective(s: VideoStatus, t: VideoStatus)
    requires StatusName(s) == StatusName(t)
    ensures s == t
  {
  }

  /** No status name contains a space (so a name ends where a space begins). */
  lemma StatusNameHasNoSpace(s: VideoStatus)
    ensures ' ' !in StatusName(s)
    ensures |StatusName(s)| > 0
  {
  }

  // ---------------------------------------------------------------------------
  // VideoQuerySchema and VideoParamsSchema

  /** The result of a zod `parse`: the value, or the names of the fields that
      failed (the empty name for the input itself). */
  datatype Parsed<T> = Valid(value: T) | Invalid(fields: seq<string>)

  datatype VideoQuery = VideoQuery(status: Option<VideoStatus>, page: int, pageSize: int)

  /** `z.number().int().min(lo).max(hi)`: a finite number with no fractional part in range. */
  predicate IntegerIn(v: Value, lo: int, hi: Option<int>)
  {
    v.Num? && v.n.Finite? && v.n.r == v.n.r.Floor as real
    && lo as real <= v.n.r && (hi.Some? ==> v.n.r <= hi.value as real)
  }

  /** The `status` field: optional, one of the seven names when present. */
  function StatusField(v: Value): Parsed<Option<VideoStatus>>
  {
    if v.Undefined? then Valid(None)
    else if v.Str? && ParseStatus(v.s).Some? then Valid(Some(ParseStatus(v.s).value))
    else Invalid(["status"])
  }

  /** An integer field with a default that replaces `undefined` only. */
  function IntField(v: Value, name: string, lo: int, hi: Option<int>, default: int): Parsed<int>
  {
    if v.Undefined? then Valid(default)
    else if IntegerIn(v, lo, hi) then Valid(v.n.r.Floor)
    else Invalid([name])
  }

  function FieldsOf<T>(p: Parsed<T>): seq<string>
  {
    if p.Invalid? then p.fields else []
  }

  /** `VideoQuerySchema.parse(input)`: zod checks every field and reports all
      failing ones, in the order of the schema. */
  function ParseVideoQuery(input: Value): Parsed<VideoQuery>
  {
    if !input.Obj? then Invalid([""])
    else
      var status := StatusField(Get(input, "status"));
      var page := IntField(Get(input, "page"), "page", 1, None, 1);
      var pageSize := IntField(Get(input, "pageSize"), "pageSize", 1, Some(100), 10);
      if status.Valid? && page.Valid? && pageSize.Valid? then
        Valid(VideoQuery(status.value, page.value, pageSize.value))
      else
        Invalid(FieldsOf(status) + FieldsOf(page) + FieldsOf(pageSize))
  }

  /** What a parsed query is: status absent or one of the seven, `page` an
      integer of at least 1 defaulting to 1, `pageSize` an integer in 1..100
      defaulting to 10; and any other input is refused, naming every bad field. */
  lemma VideoQueryBounds(input: Value)
    ensures ParseVideoQuery(input).Valid? <==>
      input.Obj?
      && (Get(input, "status").Undefined?
          || (Get(input, "status").Str? && ParseStatus(Get(input, "status").s).Some?))
      && (Get(input, "page").Undefined? || IntegerIn(Get(input, "page"), 1, None))
      && (Get(input, "pageSize").Undefined? || IntegerIn(Get(input, "pageSize"), 1, Some(100)))
    ensures ParseVideoQuery(input).Valid? ==>
      var q := ParseVideoQuery(input).value;
      && 1 <= q.page && 1 <= q.pageSize <= 100
      && (Get(input, "page").Undefined? ==> q.page == 1)
      && (Get(input, "pageSize").Undefined? ==> q.pageSize == 10)
      && (q.status.Some? ==> Get(input, "status") == Str(StatusName(q.status.value)))
      && (q.status.None? <==> Get(input, "status").Undefined?)
    ensures ParseVideoQuery(input).Invalid? && input.Obj? ==>
      var bad := ParseVideoQuery(input).fields;
      && |bad| >= 1
      && ("pageSize" in bad <==> !(Get(input, "pageSize").Undefined? || IntegerIn(Get(input, "pageSize"), 1, Some(100))))
      && ("page" in bad <==> !(Get(input, "page").Undefined? || IntegerIn(Get(input, "page"), 1, None)))
  {
    if input.Obj? {
      var page := Get(input, "page");
      var pageSize := Get(input, "pageSize");
      if IntegerIn(page, 1, None) {
        assert page.n.r.Floor >= 1;
      }
      if IntegerIn(pageSize, 1, Some(100)) {
        assert 1 <= pageSize.n.r.Floor <= 100;
      }
    }
  }

  /** `VideoParamsSchema.parse(params)`: `videoId` must be a non-empty string. */
  function ParseVideoParams(params: Value): (r: Parsed<string>)
    ensures r.Valid? <==> params.Obj? && Get(params, "videoId").Str? && Get(params, "videoId").s != ""
    ensures r.Valid? ==> r.value == Get(params, "videoId").s && r.value != ""
  {
    if !params.Obj? then Invalid([""])
    else
      var v := Get(params, "videoId");
      if v.Str? && Utf16Length(v.s) >= 1 then Valid(v.s) else Invalid(["videoId"])
  }
}
