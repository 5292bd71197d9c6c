/** The fixed status-transition graph of server/src/utils/statusTransitions.ts
    and its error. */
module StatusTransitions {
  import opened Common
  import opened Video

  /** `VALID_TRANSITIONS[from]` */
  function ValidNextStates(from: VideoStatus): seq<VideoStatus>
  {
    match from
    case Queued => [Processing]
    case Processing => [Stalled, Completed, Failed]
    case Stalled => [Processing, Failed]
    case Completed => [Archived]
    case Failed => [Queued, Deleted]
    case Archived => [Deleted]
    case Deleted => []
  }

  /** `validateStatusTransition(from, to)`: `to` is listed among the successors of `from`. */
  function ValidateStatusTransition(from: VideoStatus, to: VideoStatus): bool
  {
    to in ValidNextStates(from)
  }

  /** The graph written as its set of ten edges, one pair per arrow. */
  const Edges: set<(VideoStatus, VideoStatus)> := {
    (Queued, Processing),
    (Processing, Stalled), (Processing, Completed), (Processing, Failed),
    (Stalled, Processing), (Stalled, Failed),
    (Completed, Archived),
    (Failed, Queued), (Failed, Deleted),
    (Archived, Deleted)
  }

  /** The check accepts exactly the ten edges: both directions. */
  lemma ValidateMatchesEdges(from: VideoStatus, to: VideoStatus)
    ensures ValidateStatusTransition(from, to) <==> (from, to) in Edges
  {
  }

  /** The unit tests: queued->processing, processing->completed and
      stalled->processing are allowed; queued->completed, completed->processing
      and deleted->processing/completed are refused. */
  lemma TableTestCases()
    ensures ValidateStatusTransition(Queued, Processing)
    ensures ValidateStatusTransition(Processing, Completed)
    ensures ValidateStatusTransition(Stalled, Processing)
    ensures !ValidateStatusTransition(Queued, Completed)
    ensures !ValidateStatusTransition(Completed, Processing)
    ensures !ValidateStatusTransition(Deleted, Processing)
    ensures !ValidateStatusTransition(Deleted, Completed)
  {
  }

  /** The successor lists read one status at a time: queued has only
      processing; processing has stalled, completed, failed; stalled has
      processing and failed; completed has only archived; deleted has none. */
  lemma SuccessorsOfEachStatus(to: VideoStatus)
    ensures ValidateStatusTransition(Queued, to) <==> to == Processing
    ensures ValidateStatusTransition(Processing, to) <==> to in {Stalled, Completed, Failed}
    ensures ValidateStatusTransition(Stalled, to) <==> to == Processing || to == Failed
    ensures ValidateStatusTransition(Completed, to) <==> to == Archived
    ensures ValidateStatusTransition(Failed, to) <==> to == Queued || to == Deleted
    ensures ValidateStatusTransition(Archived, to) <==> to == Deleted
    ensures !ValidateStatusTransition(Deleted, to)
  {
  }

  /** No status lists itself: every self-transition is refused. */
  lemma NoSelfTransition(s: VideoStatus)
    ensures !ValidateStatusTransition(s, s)
  {
  }

  /** A walk along allowed transitions. */
  predicate IsPath(p: seq<VideoStatus>)
  {
    forall i :: 0 <= i < |p| - 1 ==> ValidateStatusTransition(p[i], p[i + 1])
  }

  /** Every status other than deleted can still reach deleted, and nothing
      leaves deleted, so deleted is the one terminal status. */
  lemma DeletedIsTheOnlyTerminal(s: VideoStatus)
    ensures s != Deleted ==> exists p :: |p| >= 2 && p[0] == s && p[|p| - 1] == Deleted && IsPath(p)
    ensures (forall t :: !ValidateStatusTransition(s, t)) <==> s == Deleted
  {
    var walk: seq<VideoStatus> := match s
      case Queued => [Queued, Processing, Failed, Deleted]
      case Processing => [Processing, Failed, Deleted]
      case Stalled => [Stalled, Failed, Deleted]
      case Failed => [Failed, Deleted]
      case Completed => [Completed, Archived, Deleted]
      case Archived => [Archived, Deleted]
      case Deleted => [Deleted, Deleted];
    if s != Deleted {
      assert IsPath(walk);
    }
    if s != Deleted {
      assert ValidateStatusTransition(s, walk[1]);
    }
  }

  // ---------------------------------------------------------------------------
  // InvalidStatusTransitionError

  const InvalidTransitionPrefix := "Invalid status transition from "

  /** `new InvalidStatusTransitionError(from, to)` */
  function InvalidStatusTransitionError(from: VideoStatus, to: VideoStatus): Failure
  {
    Failure("InvalidStatusTransitionError",
            InvalidTransitionPrefix + StatusName(from) + " to " + StatusName(to), None)
  }

  /** The error is named `InvalidStatusTransitionError`, its message begins
      with "Invalid status transition from " and names both statuses, and the
      message alone tells which transition was refused. */
  lemma InvalidTransitionErrorIdentifiesPair(a: VideoStatus, b: VideoStatus, c: VideoStatus, d: VideoStatus)
    ensures InvalidStatusTransitionError(a, b).name == "InvalidStatusTransitionError"
    ensures StartsWith(InvalidStatusTransitionError(a, b).message, InvalidTransitionPrefix + StatusName(a) + " to ")
    ensures EndsWith(InvalidStatusTransitionError(a, b).message, StatusName(b))
    ensures InvalidStatusTransitionError(a, b).message == InvalidStatusTransitionError(c, d).message ==> a == c && b == d
  {
    StatusNameHasNoSpace(a);
    StatusNameHasNoSpace(c);
    TransitionMessageParts(StatusName(a), StatusName(b), StatusName(c), StatusName(d));
    if InvalidStatusTransitionError(a, b).message == InvalidStatusTransitionError(c, d).message {
      StatusNameInjective(a, c);
      StatusNameInjective(b, d);
    }
  }

  /** The message text over arbitrary names: it starts with the prefix and the
      first name, ends with the second, and when names hold no space the text
      determines both names. */
  lemma TransitionMessageParts(na: string, nb: string, nc: string, nd: string)
    requires ' ' !in na && ' ' !in nc
    ensures StartsWith(InvalidTransitionPrefix + na + " to " + nb, InvalidTransitionPrefix + na + " to ")
    ensures EndsWith(InvalidTransitionPrefix + na + " to " + nb, nb)
    ensures InvalidTransitionPrefix + na + " to " + nb == InvalidTransitionPrefix + nc + " to " + nd ==> na == nc && nb == nd
  {
    var m1 := InvalidTransitionPrefix + na + " to " + nb;
    var m2 := InvalidTransitionPrefix + nc + " to " + nd;
    assert m1 == (InvalidTransitionPrefix + na + " to ") + nb;
    if m1 == m2 {
      assert m1 == InvalidTransitionPrefix + na + (" to " + nb);
      assert m2 == InvalidTransitionPrefix + nc + (" to " + nd);
      SpaceDelimitedPrefix(InvalidTransitionPrefix, na, " to " + nb, nc, " to " + nd);
      assert (" to " + nb)[4..] == nb;
      assert (" to " + nd)[4..] == nd;
    }
  }

  /** Two texts `p + x + r` and `p + y + q` that agree, where `x` and `y` hold no
      space and `r`, `q` start with one, agree in `x == y` and `r == q`. */
  lemma SpaceDelimitedPrefix(p: string, x: string, r: string, y: string, q: string)
    requires ' ' !in x && ' ' !in y
    requires |r| > 0 && r[0] == ' ' && |q| > 0 && q[0] == ' '
    requires p + x + r == p + y + q
    ensures x == y && r == q
  {
    var u, v := x + r, y + q;
    assert p + x + r == p + u && p + y + q == p + v;
    assert u == (p + u)[|p|..] && v == (p + v)[|p|..];
    FirstSpaceEndsWord(x, r);
    FirstSpaceEndsWord(y, q);
    assert x == u[..|x|] && r == u[|x|..];
    assert y == v[..|y|] && q == v[|y|..];
  }

  /** In `x + r`, with no space in `x` and a space opening `r`, the first space sits at `|x|`. */
  lemma FirstSpaceEndsWord(x: string, r: string)
    requires ' ' !in x
    requires |r| > 0 && r[0] == ' '
    ensures IndexOf(x + r, " ") == Some(|x|)
  {
    var u := x + r;
    assert OccursAt(u, " ", |x|);
    forall j | 0 <= j < |x|
      ensures !OccursAt(u, " ", j)
    {
      assert u[j] == x[j];
    }
  }
}
