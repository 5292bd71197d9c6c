/** `extractAndValidateTikTokId` of client/src/utils/tiktok.ts: the four URL
    patterns tried in order, then the checks on the captured id. */
module TikTokId {
  import opened Common

  // ---------------------------------------------------------------------------
  // The four regular expressions

  /** The character classes the patterns use: `\d`, `\w` and `[\w.-]`. */
  datatype CharClass = Digit | Word | WordDotDash

  predicate InClass(c: char, k: CharClass)
  {
    match k
    case Digit => IsDigit(c)
    case Word => IsWordChar(c)
    case WordDotDash => IsWordChar(c) || c == '.' || c == '-'
  }

  /** The length of the longest run of `k` characters at the start of `t`:
      what a greedy `k+` consumes. */
  function RunLength(t: string, k: CharClass): (n: nat)
    ensures n <= |t|
    ensures forall i :: 0 <= i < n ==> InClass(t[i], k)
    ensures n < |t| ==> !InClass(t[n], k)
    decreases |t|
  {
    if t == [] || !InClass(t[0], k) then 0 else 1 + RunLength(t[1..], k)
  }

  /** A pattern of the form `lead (capture+)`, or, with a bridge,
      `lead bridge+ link (capture+)`. The link of a bridged pattern starts
      with a character outside the bridge class, so the greedy bridge run
      never has to give characters back. */
  datatype Pattern = Pattern(lead: string, bridge: Option<CharClass>, link: string, capture: CharClass)

  /** `/tiktok\.com\/@[\w.-]+\/video\/(\d+)/`, `/vm\.tiktok\.com\/(\w+)/`,
      `/m\.tiktok\.com\/v\/(\d+)/` and `/video\/(\d+)/`, in that order. */
  const Patterns: seq<Pattern> := [
    Pattern("tiktok.com/@", Some(WordDotDash), "/video/", Digit),
    Pattern("vm.tiktok.com/", None, "", Word),
    Pattern("m.tiktok.com/v/", None, "", Digit),
    Pattern("video/", None, "", Digit)
  ]

  lemma LinksLeaveTheBridgeClass()
    ensures forall i :: 0 <= i < |Patterns| && Patterns[i].bridge.Some? ==>
      Patterns[i].link != [] && !InClass(Patterns[i].link[0], Patterns[i].bridge.value)
  {
  }

  /** Where the captured group starts when the pattern matches at `i`. */
  function CaptureStart(s: string, i: nat, p: Pattern): Option<nat>
  {
    if !OccursAt(s, p.lead, i) then None
    else
      var j := i + |p.lead|;
      match p.bridge
      case None => Some(j)
      case Some(k) =>
        var m := RunLength(s[j..], k);
        if m > 0 && OccursAt(s, p.link, j + m) then Some(j + m + |p.link|) else None
  }

  /** The captured group when the pattern matches at `i`. */
  function MatchAt(s: string, i: nat, p: Pattern): (c: Option<string>)
    ensures c.Some? ==> c.value != [] && forall n :: 0 <= n < |c.value| ==> InClass(c.value[n], p.capture)
  {
    match CaptureStart(s, i, p)
    case None => None
    case Some(j) =>
      if j > |s| then None
      else
        var n := RunLength(s[j..], p.capture);
        if n > 0 then Some(s[j..j + n]) else None
  }

  /** `url.match(pattern)`: the capture of the leftmost match at or after
      `from`. */
  function MatchFrom(s: string, p: Pattern, from: nat): Option<string>
    decreases |s| + 1 - from
  {
    if from > |s| then None
    else if MatchAt(s, from, p).Some? then MatchAt(s, from, p)
    else MatchFrom(s, p, from + 1)
  }

  /** The capture belongs to the leftmost position where the pattern
      matches. */
  lemma {:induction false} MatchFromLeftmost(s: string, p: Pattern, from: nat, i: nat)
    requires from <= i <= |s| && MatchAt(s, i, p).Some?
    requires forall k :: from <= k < i ==> MatchAt(s, k, p).None?
    ensures MatchFrom(s, p, from) == MatchAt(s, i, p)
    decreases i - from
  {
    if from < i {
      MatchFromLeftmost(s, p, from + 1, i);
    }
  }

  lemma {:induction false} MatchFromNone(s: string, p: Pattern, from: nat)
    ensures MatchFrom(s, p, from).None? <==> forall k :: from <= k <= |s| ==> MatchAt(s, k, p).None?
    decreases |s| + 1 - from
  {
    if from <= |s| && MatchAt(s, from, p).None? {
      MatchFromNone(s, p, from + 1);
    }
  }

  /** The capture of the first pattern in `ps` that matches. */
  function FirstCapture(url: string, ps: seq<Pattern>): Option<string>
    decreases |ps|
  {
    if ps == [] then None
    else
      var m := MatchFrom(url, ps[0], 0);
      if m.Some? && m.value != "" then m else FirstCapture(url, ps[1..])
  }

  // ---------------------------------------------------------------------------
  // Validation

  /** The returned object: `videoId` (or `null`) and the optional `error`. */
  datatype IdResult = IdResult(videoId: Option<string>, error: Option<string>)

  const NotExtracted := "Could not extract video ID from URL"
  const BadFormat := "Invalid video ID format"
  const BadValue := "Invalid video ID value"
  const BadId := "Invalid video ID"

  /** `/^\d{19}$/.test(id)` */
  predicate NineteenDigits(id: string)
  {
    |id| == 19 && AllDigits(id)
  }

  /** `BigInt(id)`: the value of a digit string; anything else throws. The
      model admits only digit strings; the function is applied after the
      format check. */
  function ParseBigInt(id: string): Option<int>
  {
    if AllDigits(id) then Some(DecimalValue(id)) else None
  }

  /** A digit string is worth zero exactly when every digit is '0'. */
  lemma {:induction false} ZeroValueIffAllZeros(s: string)
    requires AllDigits(s)
    ensures DecimalValue(s) == 0 <==> forall i :: 0 <= i < |s| ==> s[i] == '0'
    decreases |s|
  {
    if s != [] {
      var init := s[..|s| - 1];
      ZeroValueIffAllZeros(init);
      assert forall i :: 0 <= i < |init| ==> init[i] == s[i];
    }
  }

  /** The answer for `url`, check by check. */
  function IdCheck(url: string): IdResult
  {
    match FirstCapture(url, Patterns)
    case None => IdResult(None, Some(NotExtracted))
    case Some(id) =>
      if !NineteenDigits(id) then IdResult(None, Some(BadFormat))
      else
        match ParseBigInt(id)
        case None => IdResult(None, Some(BadId))
        case Some(v) => if v <= 0 then IdResult(None, Some(BadValue)) else IdResult(Some(id), None)
  }

  /** `extractAndValidateTikTokId(url)`: the loop over the patterns that
      stops at the first match, then the checks. */
  method ExtractAndValidateTikTokId(url: string) returns (r: IdResult)
    ensures r == IdCheck(url)
  {
    var extractedId: Option<string> := None;
    var i := 0;
    while i < |Patterns|
      invariant 0 <= i <= |Patterns|
      invariant extractedId.None?
      invariant FirstCapture(url, Patterns) == FirstCapture(url, Patterns[i..])
    {
      assert Patterns[i..][1..] == Patterns[i + 1..];
      var m := MatchFrom(url, Patterns[i], 0);
      if m.Some? && m.value != "" {
        extractedId := m;
        break;
      }
      i := i + 1;
    }
    if extractedId.None? || extractedId.value == "" {
      return IdResult(None, Some(NotExtracted));
    }
    var id := extractedId.value;
    if !NineteenDigits(id) {
      return IdResult(None, Some(BadFormat));
    }
    var numericId := ParseBigInt(id);
    if numericId.None? {
      return IdResult(None, Some(BadId));
    }
    if numericId.value <= 0 {
      return IdResult(None, Some(BadValue));
    }
    return IdResult(Some(id), None);
  }

  /** Exactly one of `videoId` and `error` is set; the id is returned only
      when it is the first pattern's capture, has 19 digits and is not all
      zeros; each error names the first check that failed, and the `catch`
      branch is never taken. */
  lemma IdCheckSpec(url: string)
    ensures var r := IdCheck(url);
      && (r.videoId.Some? <==> r.error.None?)
      && (r.error == Some(NotExtracted) <==> FirstCapture(url, Patterns).None?)
      && (r.error == Some(BadFormat) <==>
            FirstCapture(url, Patterns).Some? && !NineteenDigits(FirstCapture(url, Patterns).value))
      && (r.error == Some(BadValue) <==>
            && FirstCapture(url, Patterns).Some? && NineteenDigits(FirstCapture(url, Patterns).value)
            && forall i :: 0 <= i < 19 ==> FirstCapture(url, Patterns).value[i] == '0')
      && r.error != Some(BadId)
      && (r.videoId.Some? ==> Some(r.videoId.value) == FirstCapture(url, Patterns) && NineteenDigits(r.videoId.value))
  {
    if FirstCapture(url, Patterns).Some? && NineteenDigits(FirstCapture(url, Patterns).value) {
      ZeroValueIffAllZeros(FirstCapture(url, Patterns).value);
    }
  }

  /** A short-link code (`vm.tiktok.com/<code>`) that holds a letter is
      refused as a bad format when no earlier pattern matches. */
  lemma ShortLinkCodeRefused(url: string)
    requires MatchFrom(url, Patterns[0], 0).None?
    requires MatchFrom(url, Patterns[1], 0).Some?
    requires exists i :: 0 <= i < |MatchFrom(url, Patterns[1], 0).value| && !IsDigit(MatchFrom(url, Patterns[1], 0).value[i])
    ensures IdCheck(url) == IdResult(None, Some(BadFormat))
  {
    assert Patterns[1..][1..] == Patterns[2..];
    assert FirstCapture(url, Patterns) == FirstCapture(url, Patterns[1..]);
  }

  /** The usage example of the source file,
      "https://www.tiktok.com/@getahead.app/video/7460616221008973064". */
  const ExampleUrl := ProfileUrl("https://www.", "getahead.app", "7460616221008973064", "")

  /** A profile video URL `pre + "tiktok.com/@" + user + "/video/" + id +
      post`. */
  function ProfileUrl(pre: string, user: string, id: string, post: string): string
  {
    pre + "tiktok.com/@" + user + "/video/" + id + post
  }

  lemma OccursAtJoin(a: string, b: string, c: string)
    ensures OccursAt(a + b + c, b, |a|)
  {
    assert (a + b + c)[|a|..|a| + |b|] == b;
  }

  /** A greedy run over `u + t` takes exactly `u` when `u` is all in the
      class and `t` does not start with a class character. */
  lemma {:induction false} RunLengthOfJoin(u: string, t: string, k: CharClass)
    requires forall i :: 0 <= i < |u| ==> InClass(u[i], k)
    requires t == [] || !InClass(t[0], k)
    ensures RunLength(u + t, k) == |u|
    decreases |u|
  {
    if u == [] {
      assert u + t == t;
    } else {
      assert (u + t)[1..] == u[1..] + t;
      assert forall i :: 0 <= i < |u[1..]| ==> u[1..][i] == u[i + 1];
      RunLengthOfJoin(u[1..], t, k);
    }
  }

  lemma ProfileUrlLead(pre: string, user: string, id: string, post: string)
    requires user != [] && forall i :: 0 <= i < |user| ==> InClass(user[i], WordDotDash)
    ensures CaptureStart(ProfileUrl(pre, user, id, post), |pre|, Patterns[0]) == Some(|pre| + 19 + |user|)
  {
    var b, v := "tiktok.com/@", "/video/";
    var s := ProfileUrl(pre, user, id, post);
    assert Patterns[0] == Pattern(b, Some(WordDotDash), v, Digit);
    var rest := user + v + id + post;
    assert s == pre + b + rest;
    OccursAtJoin(pre, b, rest);
    var j := |pre| + |b|;
    assert s[j..] == user + (v + id + post);
    assert !InClass((v + id + post)[0], WordDotDash);
    RunLengthOfJoin(user, v + id + post, WordDotDash);
    assert s == (pre + b + user) + v + (id + post);
    OccursAtJoin(pre + b + user, v, id + post);
  }

  lemma ProfileUrlDigits(pre: string, user: string, id: string, post: string)
    requires id != [] && AllDigits(id)
    requires post == [] || !IsDigit(post[0])
    ensures var s := ProfileUrl(pre, user, id, post); var k := |pre| + 19 + |user|;
      && k + |id| <= |s| && RunLength(s[k..], Digit) == |id| && s[k..k + |id|] == id
  {
    var s := ProfileUrl(pre, user, id, post);
    var k := |pre| + 19 + |user|;
    assert s == (pre + "tiktok.com/@" + user + "/video/") + id + post;
    assert s[k..] == id + post;
    RunLengthOfJoin(id, post, Digit);
    assert s[k..k + |id|] == id;
  }

  /** On a profile video URL the first pattern, tried at the start of its
      lead, captures the digits of `id`. */
  lemma ProfileUrlCapture(pre: string, user: string, id: string, post: string)
    requires user != [] && forall i :: 0 <= i < |user| ==> InClass(user[i], WordDotDash)
    requires id != [] && AllDigits(id)
    requires post == [] || !IsDigit(post[0])
    ensures MatchAt(ProfileUrl(pre, user, id, post), |pre|, Patterns[0]) == Some(id)
  {
    ProfileUrlLead(pre, user, id, post);
    ProfileUrlDigits(pre, user, id, post);
  }

  /** Behind "https://www." the lead of the first pattern starts nowhere
      before position 12: its '@' would have to fall in
      "https://www.tiktok.com/". */
  lemma ExampleHasNoEarlierMatch(user: string, id: string, post: string)
    ensures forall k :: 0 <= k < 12 ==> MatchAt(ProfileUrl("https://www.", user, id, post), k, Patterns[0]).None?
  {
    var pre, b := "https://www.", "tiktok.com/@";
    var s := ProfileUrl(pre, user, id, post);
    assert forall i :: 0 <= i < 12 ==> pre[i] != '@';
    assert forall i :: 0 <= i < 11 ==> b[i] != '@';
    forall k | 0 <= k < 12 ensures !OccursAt(s, b, k) {
      assert s[k + 11] == (pre + b)[k + 11];
      assert s[k + 11] != '@';
    }
  }

  /** A nineteen-digit capture that does not start with '0' is accepted. */
  lemma NonZeroCaptureAccepted(url: string, d: string)
    requires FirstCapture(url, Patterns) == Some(d)
    requires NineteenDigits(d) && d[0] != '0'
    ensures IdCheck(url) == IdResult(Some(d), None)
  {
    ZeroValueIffAllZeros(d);
  }

  /** Behind "https://www." the first pattern captures the id of a profile
      video URL. */
  lemma ProfileUrlFirstCapture(user: string, id: string, post: string)
    requires user != [] && forall i :: 0 <= i < |user| ==> InClass(user[i], WordDotDash)
    requires id != [] && AllDigits(id)
    requires post == [] || !IsDigit(post[0])
    ensures FirstCapture(ProfileUrl("https://www.", user, id, post), Patterns) == Some(id)
  {
    var s := ProfileUrl("https://www.", user, id, post);
    ProfileUrlCapture("https://www.", user, id, post);
    ExampleHasNoEarlierMatch(user, id, post);
    MatchFromLeftmost(s, Patterns[0], 0, 12);
  }

  /** The usage example of the source file yields its id. */
  lemma ExampleUrlIsValid()
    ensures IdCheck(ExampleUrl) == IdResult(Some("7460616221008973064"), None)
  {
    var d := "7460616221008973064";
    var u := "getahead.app";
    assert AllDigits(d) by {
      assert forall i :: 0 <= i < |d| ==> IsDigit(d[i]);
    }
    assert forall i :: 0 <= i < |u| ==> InClass(u[i], WordDotDash);
    ProfileUrlFirstCapture(u, d, "");
    NonZeroCaptureAccepted(ExampleUrl, d);
  }
}
