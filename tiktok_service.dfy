/** The text steps of `fetchTikTokData` in server/src/services/tiktokService.ts:
    the URL without its query, the id after "/video/", the hashtags and the
    description taken from the oEmbed title, and the play address found in
    the page HTML. The two HTTP requests are not part of this model; the
    title and the HTML are inputs. */
module TikTokText {
  import opened Common

  // ---------------------------------------------------------------------------
  // URL and id

  /** `url.split('?')[0]` */
  function CleanUrl(url: string): (c: string)
    ensures c <= url && '?' !in c
    ensures |c| < |url| ==> url[|c|] == '?'
    decreases |url|
  {
    if url == [] || url[0] == '?' then [] else [url[0]] + CleanUrl(url[1..])
  }

  /** Cleaning is idempotent, and leaves a URL without a query as it is. */
  lemma {:induction false} CleanUrlIdempotent(url: string)
    ensures CleanUrl(CleanUrl(url)) == CleanUrl(url)
    ensures '?' !in url ==> CleanUrl(url) == url
    decreases |url|
  {
    if url != [] && url[0] != '?' {
      CleanUrlIdempotent(url[1..]);
      assert CleanUrl(url) == [url[0]] + CleanUrl(url[1..]);
      assert (forall i :: 0 <= i < |url[1..]| ==> url[1..][i] == url[i + 1]);
      assert ('?' !in url ==> '?' !in url[1..]);
      assert url == [url[0]] + url[1..];
    }
  }

  const VideoSep := "/video/"

  /** `cleanUrl.split('/video/')[1]`: `undefined` without a separator,
      otherwise the text between the first separator and the next one (or
      the end). */
  function VideoIdOf(cleanUrl: string): Option<string>
  {
    match IndexOf(cleanUrl, VideoSep)
    case None => None
    case Some(p) =>
      var start := p + |VideoSep|;
      match IndexOfFrom(cleanUrl, VideoSep, start)
      case None => Some(cleanUrl[start..])
      case Some(q) => Some(cleanUrl[start..q])
  }

  /** The URL splits as `head + "/video/" + id + tail`, where `head` holds no
      separator and `tail` is empty or starts with another separator; with
      no separator at all, there is no id. */
  lemma VideoIdSpec(cleanUrl: string)
    ensures VideoIdOf(cleanUrl).None? <==> forall j :: !OccursAt(cleanUrl, VideoSep, j)
    ensures VideoIdOf(cleanUrl).Some? ==>
      var id := VideoIdOf(cleanUrl).value; var p := IndexOf(cleanUrl, VideoSep).value;
      var tail := cleanUrl[p + 7 + |id|..];
      && cleanUrl == cleanUrl[..p] + VideoSep + id + tail
      && (forall j :: 0 <= j < p ==> !OccursAt(cleanUrl, VideoSep, j))
      && (tail == [] || StartsWith(tail, VideoSep))
  {
    if IndexOf(cleanUrl, VideoSep).Some? {
      var p := IndexOf(cleanUrl, VideoSep).value;
      var start := p + 7;
      var id := VideoIdOf(cleanUrl).value;
      var e := start + |id|;
      assert cleanUrl[p..start] == VideoSep;
      assert id == cleanUrl[start..e];
      assert cleanUrl == cleanUrl[..p] + cleanUrl[p..start] + cleanUrl[start..e] + cleanUrl[e..];
      if IndexOfFrom(cleanUrl, VideoSep, start).Some? {
        assert cleanUrl[e..][..7] == cleanUrl[e..e + 7];
      }
    }
  }

  /** The id never holds the separator itself. */
  lemma VideoIdHasNoSeparator(cleanUrl: string)
    ensures VideoIdOf(cleanUrl).Some? ==> forall j :: 0 <= j ==> !OccursAt(VideoIdOf(cleanUrl).value, VideoSep, j)
  {
    if IndexOf(cleanUrl, VideoSep).Some? {
      var p := IndexOf(cleanUrl, VideoSep).value;
      var start := p + 7;
      var id := VideoIdOf(cleanUrl).value;
      var e := start + |id|;
      assert id == cleanUrl[start..e];
      forall j | 0 <= j ensures OccursAt(id, VideoSep, j) ==> OccursAt(cleanUrl, VideoSep, start + j) && start + j + 7 <= e {
        if OccursAt(id, VideoSep, j) {
          OccursInSlice(cleanUrl, VideoSep, start, e, j);
        }
      }
    }
  }

  /** An occurrence inside a slice is an occurrence in the whole string,
      ending within the slice. */
  lemma OccursInSlice(s: string, pat: string, a: nat, b: nat, j: nat)
    requires a <= b <= |s| && OccursAt(s[a..b], pat, j)
    ensures OccursAt(s, pat, a + j) && a + j + |pat| <= b
  {
    var t := s[a..b];
    assert j + |pat| <= |t|;
    assert forall k :: j <= k < j + |pat| ==> t[k] == s[a + k];
    assert s[a + j..a + j + |pat|] == t[j..j + |pat|];
  }

  // ---------------------------------------------------------------------------
  // Hashtags and description

  /** The length of the longest run of `\w` characters at the start of `s`. */
  function WordRun(s: string): (n: nat)
    ensures n <= |s|
    ensures forall i :: 0 <= i < n ==> IsWordChar(s[i])
    ensures n < |s| ==> !IsWordChar(s[n])
    decreases |s|
  {
    if s == [] || !IsWordChar(s[0]) then 0 else 1 + WordRun(s[1..])
  }

  /** One left-to-right pass of the global regular expression `#\w+`: the
      matched tags without their `#`, and the text outside the matches. */
  datatype TagScan = TagScan(tags: seq<string>, rest: string)

  function ScanTags(s: string): TagScan
    decreases |s|
  {
    if s == [] then TagScan([], [])
    else if s[0] == '#' && |s| > 1 && IsWordChar(s[1]) then
      var k := WordRun(s[1..]);
      var r := ScanTags(s[1 + k..]);
      TagScan([s[1..1 + k]] + r.tags, r.rest)
    else
      var r := ScanTags(s[1..]);
      TagScan(r.tags, [s[0]] + r.rest)
  }

  /** Every tag is a non-empty run of `\w` characters that is not followed by
      another one in the title (the match is greedy). */
  lemma {:induction false} TagsAreWords(s: string)
    ensures forall t :: t in ScanTags(s).tags ==> t != [] && forall i :: 0 <= i < |t| ==> IsWordChar(t[i])
    decreases |s|
  {
    if s != [] {
      if s[0] == '#' && |s| > 1 && IsWordChar(s[1]) {
        var k := WordRun(s[1..]);
        TagsAreWords(s[1 + k..]);
        var t := s[1..1 + k];
        assert forall i :: 0 <= i < |t| ==> t[i] == s[1..][i];
      } else {
        TagsAreWords(s[1..]);
      }
    }
  }

  /** Text outside the matches that starts with a non-word character still
      does after the pass. */
  lemma {:induction false} RestStartsNonWord(s: string)
    requires s == [] || !IsWordChar(s[0])
    ensures ScanTags(s).rest == [] || !IsWordChar(ScanTags(s).rest[0])
    decreases |s|
  {
    if s != [] && s[0] == '#' && |s| > 1 && IsWordChar(s[1]) {
      var k := WordRun(s[1..]);
      assert s[1 + k..] == [] || s[1 + k..][0] == s[1..][k];
      RestStartsNonWord(s[1 + k..]);
    }
  }

  /** No `#` in `r` is followed by a `\w` character. */
  predicate NoTag(r: string)
  {
    forall i :: 0 <= i < |r| - 1 && r[i] == '#' ==> !IsWordChar(r[i + 1])
  }

  lemma NoTagInSlice(r: string, a: nat, b: nat)
    requires NoTag(r) && a <= b <= |r|
    ensures NoTag(r[a..b])
  {
    forall i | 0 <= i < b - a - 1 && r[a..b][i] == '#' ensures !IsWordChar(r[a..b][i + 1]) {
      assert r[a..b][i] == r[a + i] && r[a..b][i + 1] == r[a + i + 1];
    }
  }

  /** No hashtag survives the removal: a `#` left in the text is never
      followed by a `\w` character. */
  lemma {:induction false} NoTagLeft(s: string)
    ensures NoTag(ScanTags(s).rest)
    decreases |s|
  {
    if s != [] {
      if s[0] == '#' && |s| > 1 && IsWordChar(s[1]) {
        var k := WordRun(s[1..]);
        NoTagLeft(s[1 + k..]);
        assert ScanTags(s).rest == ScanTags(s[1 + k..]).rest;
      } else {
        var r' := ScanTags(s[1..]).rest;
        NoTagLeft(s[1..]);
        if s[0] == '#' {
          RestStartsNonWord(s[1..]);
        }
        var r := ScanTags(s).rest;
        assert r == [s[0]] + r';
        forall i | 0 <= i < |r| - 1 && r[i] == '#' ensures !IsWordChar(r[i + 1]) {
          if i > 0 {
            assert r[i] == r'[i - 1] && r[i + 1] == r'[i];
          }
        }
      }
    }
  }

  /** The characters of the title outside the matches plus, for each tag,
      its `#` and its word. */
  function TagsLength(tags: seq<string>): nat
  {
    if tags == [] then 0 else 1 + |tags[0]| + TagsLength(tags[1..])
  }

  /** The pass loses no character: the remaining text and the tags (each
      with its `#`) account for the whole title, and a title without `#`
      has no tags and is kept as it is. */
  lemma {:induction false} ScanAccountsForEveryChar(s: string)
    ensures |ScanTags(s).rest| + TagsLength(ScanTags(s).tags) == |s|
    ensures '#' !in s ==> ScanTags(s) == TagScan([], s)
    decreases |s|
  {
    if s != [] {
      if s[0] == '#' && |s| > 1 && IsWordChar(s[1]) {
        var k := WordRun(s[1..]);
        ScanAccountsForEveryChar(s[1 + k..]);
        var r := ScanTags(s[1 + k..]);
        assert ([s[1..1 + k]] + r.tags)[1..] == r.tags;
      } else {
        ScanAccountsForEveryChar(s[1..]);
        assert '#' !in s ==> '#' !in s[1..];
        assert s == [s[0]] + s[1..];
      }
    }
  }

  /** `String.prototype.trim`'s white space and line terminators. */
  predicate IsJsSpace(c: char)
  {
    c == '\t' || c == '\n' || c == '\U{000B}' || c == '\U{000C}' || c == '\r' || c == ' '
    || c == '\U{00A0}' || c == '\U{1680}' || ('\U{2000}' <= c <= '\U{200A}')
    || c == '\U{2028}' || c == '\U{2029}' || c == '\U{202F}' || c == '\U{205F}' || c == '\U{3000}' || c == '\U{FEFF}'
  }

  function TrimStart(s: string): (t: string)
    ensures |t| <= |s|
    decreases |s|
  {
    if s != [] && IsJsSpace(s[0]) then TrimStart(s[1..]) else s
  }

  function TrimEnd(s: string): (t: string)
    ensures |t| <= |s|
    decreases |s|
  {
    if s != [] && IsJsSpace(s[|s| - 1]) then TrimEnd(s[..|s| - 1]) else s
  }

  /** `s.trim()` */
  function Trim(s: string): string
  {
    TrimEnd(TrimStart(s))
  }

  lemma {:induction false} TrimStartSpec(s: string)
    ensures var t := TrimStart(s); var k := |s| - |t|;
      && t == s[k..]
      && (forall i :: 0 <= i < k ==> IsJsSpace(s[i]))
      && (t == [] || !IsJsSpace(t[0]))
    decreases |s|
  {
    if s != [] && IsJsSpace(s[0]) {
      TrimStartSpec(s[1..]);
      var k := |s| - |TrimStart(s)|;
      assert s[1..][k - 1..] == s[k..];
      forall i | 0 <= i < k ensures IsJsSpace(s[i]) {
        if i > 0 { assert s[i] == s[1..][i - 1]; }
      }
    }
  }

  lemma {:induction false} TrimEndSpec(s: string)
    ensures var t := TrimEnd(s); var k := |t|;
      && t == s[..k]
      && (forall i :: k <= i < |s| ==> IsJsSpace(s[i]))
      && (t == [] || !IsJsSpace(t[|t| - 1]))
    decreases |s|
  {
    if s != [] && IsJsSpace(s[|s| - 1]) {
      var s' := s[..|s| - 1];
      TrimEndSpec(s');
      var k := |TrimEnd(s)|;
      assert s'[..k] == s[..k];
      forall i | k <= i < |s| ensures IsJsSpace(s[i]) {
        if i < |s| - 1 { assert s[i] == s'[i]; }
      }
    }
  }

  /** Trimming keeps a contiguous middle part of the text and removes only
      white space from each end. */
  lemma TrimSpec(s: string)
    ensures var t := Trim(s); var a := |s| - |TrimStart(s)|;
      && a + |t| <= |s| && t == s[a..a + |t|]
      && (forall i :: 0 <= i < a ==> IsJsSpace(s[i]))
      && (forall i :: a + |t| <= i < |s| ==> IsJsSpace(s[i]))
  {
    var u := TrimStart(s);
    var t := Trim(s);
    var a := |s| - |u|;
    TrimStartSpec(s);
    TrimEndSpec(u);
    assert u[..|t|] == s[a..a + |t|];
    forall i | a + |t| <= i < |s| ensures IsJsSpace(s[i]) {
      assert s[i] == u[i - a];
    }
  }

  /** Trimming leaves no white space at either end, so trimming twice is
      trimming once. */
  lemma TrimIdempotent(s: string)
    ensures Trim(Trim(s)) == Trim(s)
  {
    var t := Trim(s);
    TrimEnds(s);
    assert TrimStart(t) == t;
    assert TrimEnd(t) == t;
  }

  lemma TrimEnds(s: string)
    ensures var t := Trim(s); t != [] ==> !IsJsSpace(t[0]) && !IsJsSpace(t[|t| - 1])
  {
    var u := TrimStart(s);
    TrimStartSpec(s);
    TrimEndSpec(u);
    var t := Trim(s);
    if t != [] {
      assert t[0] == u[0];
    }
  }

  /** `(title?.match(/#\w+/g) || []).map(tag => tag.slice(1))` */
  function Hashtags(title: Option<string>): seq<string>
  {
    match title
    case None => []
    case Some(t) => ScanTags(t).tags
  }

  /** `title?.replace(/#\w+/g, '').trim() || ''` */
  function Description(title: Option<string>): string
  {
    match title
    case None => ""
    case Some(t) => Trim(ScanTags(t).rest)
  }

  /** Without a title there are no hashtags and the description is empty;
      with one, every hashtag is a non-empty word. */
  lemma TitleParts(title: Option<string>)
    ensures title.None? ==> Hashtags(title) == [] && Description(title) == ""
    ensures forall t :: t in Hashtags(title) ==> t != [] && forall i :: 0 <= i < |t| ==> IsWordChar(t[i])
  {
    if title.Some? {
      TagsAreWords(title.value);
    }
  }

  /** The description keeps no hashtag and no white space at either end. */
  lemma DescriptionHasNoTag(title: Option<string>)
    ensures NoTag(Description(title))
    ensures var d := Description(title); d != [] ==> !IsJsSpace(d[0]) && !IsJsSpace(d[|d| - 1])
  {
    if title.Some? {
      var r := ScanTags(title.value).rest;
      NoTagLeft(title.value);
      TrimSpec(r);
      TrimEnds(r);
      var d := Description(title);
      var a := |r| - |TrimStart(r)|;
      assert d == r[a..a + |d|];
      NoTagInSlice(r, a, a + |d|);
    }
  }

  // ---------------------------------------------------------------------------
  // Play address

  const PlayAddrKey := "\"playAddr\":\""

  /** The regular expression `"playAddr":"([^"]+)"` matches at `i`: the key,
      then one or more characters up to the next quote. */
  predicate PlayAddrAt(html: string, i: nat)
  {
    OccursAt(html, PlayAddrKey, i)
    && var j := i + |PlayAddrKey|;
       var q := IndexOfFrom(html, "\"", j);
       q.Some? && q.value > j
  }

  /** The captured group of a match at `i`. */
  function CaptureAt(html: string, i: nat): (c: string)
    requires PlayAddrAt(html, i)
    ensures c != [] && '"' !in c
  {
    var j := i + |PlayAddrKey|;
    var q := IndexOfFrom(html, "\"", j).value;
    assert forall k :: j <= k < q ==> !OccursAt(html, "\"", k);
    assert forall k :: 0 <= k < q - j ==> html[j..q][k] == html[j + k] && (html[j + k] == '"' ==> OccursAt(html, "\"", j + k));
    html[j..q]
  }

  /** The leftmost match at or after `from`. */
  function FirstPlayAddr(html: string, from: nat): (r: Option<nat>)
    ensures r.Some? ==> from <= r.value && PlayAddrAt(html, r.value)
    decreases |html| - from
  {
    if from >= |html| then None
    else if PlayAddrAt(html, from) then Some(from)
    else FirstPlayAddr(html, from + 1)
  }

  /** The search finds nothing exactly when there is no match. */
  lemma {:induction false} FirstPlayAddrNone(html: string, from: nat)
    ensures FirstPlayAddr(html, from).None? <==> forall i :: from <= i ==> !PlayAddrAt(html, i)
    decreases |html| - from
  {
    if from < |html| && !PlayAddrAt(html, from) {
      FirstPlayAddrNone(html, from + 1);
    }
  }

  /** The search finds the leftmost match. */
  lemma {:induction false} FirstPlayAddrLeftmost(html: string, from: nat)
    ensures FirstPlayAddr(html, from).Some? ==>
      forall k :: from <= k < FirstPlayAddr(html, from).value ==> !PlayAddrAt(html, k)
    decreases |html| - from
  {
    if from < |html| && !PlayAddrAt(html, from) {
      FirstPlayAddrLeftmost(html, from + 1);
    }
  }

  /** `s.replace(pat, rep)` with a global pattern matching the literal `pat`. */
  function ReplaceAll(s: string, pat: string, rep: string): string
    requires pat != []
    decreases |s|
  {
    if s == [] then []
    else if OccursAt(s, pat, 0) then rep + ReplaceAll(s[|pat|..], pat, rep)
    else [s[0]] + ReplaceAll(s[1..], pat, rep)
  }

  /** A character in neither the text nor the replacement is not in the
      result. */
  lemma {:induction false} ReplaceAllAvoids(s: string, pat: string, rep: string, c: char)
    requires pat != [] && c !in s && c !in rep
    ensures c !in ReplaceAll(s, pat, rep)
    decreases |s|
  {
    if s != [] {
      if OccursAt(s, pat, 0) {
        assert c !in s[|pat|..];
        ReplaceAllAvoids(s[|pat|..], pat, rep, c);
      } else {
        assert c !in s[1..];
        ReplaceAllAvoids(s[1..], pat, rep, c);
      }
    }
  }

  /** Text without the pattern's first character is kept as it is. */
  lemma {:induction false} ReplaceAllWithoutPattern(s: string, pat: string, rep: string)
    requires pat != [] && pat[0] !in s
    ensures ReplaceAll(s, pat, rep) == s
    decreases |s|
  {
    if s != [] {
      assert s[0] != pat[0];
      assert !OccursAt(s, pat, 0) by {
        if |pat| <= |s| { assert s[..|pat|][0] == s[0]; }
      }
      assert pat[0] !in s[1..];
      ReplaceAllWithoutPattern(s[1..], pat, rep);
      assert s == [s[0]] + s[1..];
    }
  }

  const EscapedSlash := "\\u002F"

  /** `playUrlMatch ? playUrlMatch[1].replace(/\\u002F/g, '/') : undefined` */
  function PlayUrl(html: string): Option<string>
  {
    match FirstPlayAddr(html, 0)
    case None => None
    case Some(i) => Some(ReplaceAll(CaptureAt(html, i), EscapedSlash, "/"))
  }

  /** The play URL is the leftmost capture with its escaped slashes decoded:
      never empty and free of quotes, and absent exactly when the HTML has
      no match. */
  lemma PlayUrlSpec(html: string)
    ensures PlayUrl(html).None? <==> forall i :: !PlayAddrAt(html, i)
    ensures PlayUrl(html).Some? ==>
      var i := FirstPlayAddr(html, 0).value;
      && PlayAddrAt(html, i) && (forall k :: 0 <= k < i ==> !PlayAddrAt(html, k))
      && PlayUrl(html).value == ReplaceAll(CaptureAt(html, i), EscapedSlash, "/")
      && PlayUrl(html).value != [] && '"' !in PlayUrl(html).value
      && ('\\' !in CaptureAt(html, i) ==> PlayUrl(html).value == CaptureAt(html, i))
  {
    FirstPlayAddrNone(html, 0);
    FirstPlayAddrLeftmost(html, 0);
    if FirstPlayAddr(html, 0).Some? {
      var c := CaptureAt(html, FirstPlayAddr(html, 0).value);
      ReplaceAllAvoids(c, EscapedSlash, "/", '"');
      if '\\' !in c {
        ReplaceAllWithoutPattern(c, EscapedSlash, "/");
      }
    }
  }
}
