/** client/src/config/api.ts: the API base URL, the endpoint paths and
    `buildApiUrl`. A parameter record is the list of its own properties in
    creation order. `Object.entries` lists the properties whose key is an
    array index first, by ascending value, and the others after them in
    creation order. URLSearchParams' percent-encoding of one name or value
    is the parameter `encode`. */
module ApiConfig {
  import opened Common

  const BaseUrl := "http://localhost:3000"

  /** `keyof typeof API_CONFIG.ENDPOINTS` */
  datatype Endpoint = TestVideos | TestSummaryProcess | TestSummaryCreate

  function EndpointPath(e: Endpoint): (path: string)
    ensures StartsWith(path, "/api/test-")
  {
    match e
    case TestVideos => "/api/test-videos"
    case TestSummaryProcess => "/api/test-summary/process"
    case TestSummaryCreate => "/api/test-summary/create"
  }

  type Entry = (string, string)

  // ---------------------------------------------------------------------------
  // Object.entries

  /** A canonical decimal numeral below 2^32 - 1. */
  predicate IsArrayIndex(k: string)
  {
    k != "" && AllDigits(k) && (k[0] != '0' || k == "0") && DecimalValue(k) < 0xFFFF_FFFF
  }

  function IndexValue(k: string): nat
  {
    if AllDigits(k) then DecimalValue(k) else 0
  }

  predicate IsIndexEntry(e: Entry) { IsArrayIndex(e.0) }
  predicate IsNamedEntry(e: Entry) { !IsArrayIndex(e.0) }
  predicate HasValue(e: Entry) { e.1 != "" }

  function Filter(s: seq<Entry>, p: Entry -> bool): (r: seq<Entry>)
    ensures |r| <= |s|
  {
    if s == [] then [] else Filter(s[..|s| - 1], p) + (if p(s[|s| - 1]) then [s[|s| - 1]] else [])
  }

  /** `s` with `x` placed after every entry whose index is not above its
      own. */
  function Insert(x: Entry, s: seq<Entry>): seq<Entry>
  {
    if s == [] then [x]
    else if IndexValue(x.0) < IndexValue(s[0].0) then [x] + s
    else [s[0]] + Insert(x, s[1..])
  }

  function SortByIndex(s: seq<Entry>): seq<Entry>
  {
    if s == [] then [] else Insert(s[|s| - 1], SortByIndex(s[..|s| - 1]))
  }

  /** `Object.entries(params)` */
  function ObjectEntries(params: seq<Entry>): seq<Entry>
  {
    SortByIndex(Filter(params, IsIndexEntry)) + Filter(params, IsNamedEntry)
  }

  predicate Ascending(s: seq<Entry>)
  {
    forall i, j :: 0 <= i < j < |s| ==> IndexValue(s[i].0) <= IndexValue(s[j].0)
  }

  lemma {:induction false} FilterSpec(s: seq<Entry>, p: Entry -> bool)
    ensures forall e :: e in Filter(s, p) <==> e in s && p(e)
    ensures forall i :: 0 <= i < |Filter(s, p)| ==> p(Filter(s, p)[i])
    ensures multiset(Filter(s, p)) <= multiset(s)
    decreases |s|
  {
    if s != [] {
      var init := s[..|s| - 1];
      FilterSpec(init, p);
      assert s == init + [s[|s| - 1]];
    }
  }

  lemma {:induction false} FilterSplits(s: seq<Entry>, p: Entry -> bool, q: Entry -> bool)
    requires forall e :: q(e) == !p(e)
    ensures multiset(Filter(s, p)) + multiset(Filter(s, q)) == multiset(s)
    decreases |s|
  {
    if s != [] {
      var init := s[..|s| - 1];
      FilterSplits(init, p, q);
      assert s == init + [s[|s| - 1]];
    }
  }

  lemma FilterStep(s: seq<Entry>, i: nat, p: Entry -> bool)
    requires i < |s|
    ensures Filter(s[..i + 1], p) == Filter(s[..i], p) + (if p(s[i]) then [s[i]] else [])
  {
    assert s[..i + 1][..i] == s[..i];
  }

  /** A filter that keeps everything changes nothing. */
  lemma {:induction false} FilterKeepsAll(s: seq<Entry>, p: Entry -> bool)
    requires forall i :: 0 <= i < |s| ==> p(s[i])
    ensures Filter(s, p) == s
    decreases |s|
  {
    if s != [] {
      FilterKeepsAll(s[..|s| - 1], p);
      assert s == s[..|s| - 1] + [s[|s| - 1]];
    }
  }

  /** A filter that keeps nothing gives the empty list. */
  lemma {:induction false} FilterDropsAll(s: seq<Entry>, p: Entry -> bool)
    requires forall i :: 0 <= i < |s| ==> !p(s[i])
    ensures Filter(s, p) == []
    decreases |s|
  {
    if s != [] {
      FilterDropsAll(s[..|s| - 1], p);
    }
  }

  lemma {:induction false} InsertPerm(x: Entry, s: seq<Entry>)
    ensures multiset(Insert(x, s)) == multiset(s) + multiset{x}
    decreases |s|
  {
    if s != [] && IndexValue(x.0) >= IndexValue(s[0].0) {
      InsertPerm(x, s[1..]);
      assert s == [s[0]] + s[1..];
    }
  }

  /** Every index in `Insert(x, s)` is at least `b` when `x` and every
      entry of `s` have one that is. */
  lemma {:induction false} InsertAbove(x: Entry, s: seq<Entry>, b: nat)
    requires b <= IndexValue(x.0)
    requires forall i :: 0 <= i < |s| ==> b <= IndexValue(s[i].0)
    ensures forall j :: 0 <= j < |Insert(x, s)| ==> b <= IndexValue(Insert(x, s)[j].0)
    decreases |s|
  {
    if s != [] && IndexValue(x.0) >= IndexValue(s[0].0) {
      assert forall i :: 0 <= i < |s[1..]| ==> s[1..][i] == s[i + 1];
      InsertAbove(x, s[1..], b);
    }
  }

  lemma AscendingTail(s: seq<Entry>)
    requires s != [] && Ascending(s)
    ensures Ascending(s[1..])
    ensures forall i :: 0 <= i < |s[1..]| ==> IndexValue(s[0].0) <= IndexValue(s[1..][i].0)
  {
    forall i, j | 0 <= i < j < |s[1..]| ensures IndexValue(s[1..][i].0) <= IndexValue(s[1..][j].0) {
      assert s[1..][i] == s[i + 1] && s[1..][j] == s[j + 1];
    }
    forall i | 0 <= i < |s[1..]| ensures IndexValue(s[0].0) <= IndexValue(s[1..][i].0) {
      assert s[1..][i] == s[i + 1];
    }
  }

  /** An entry whose index is not above any in an ascending list keeps it
      ascending when put in front. */
  lemma ConsAscending(x: Entry, s: seq<Entry>)
    requires Ascending(s)
    requires forall i :: 0 <= i < |s| ==> IndexValue(x.0) <= IndexValue(s[i].0)
    ensures Ascending([x] + s)
  {
    var r := [x] + s;
    forall i, j | 0 <= i < j < |r| ensures IndexValue(r[i].0) <= IndexValue(r[j].0) {
      assert r[j] == s[j - 1];
      if i > 0 {
        assert r[i] == s[i - 1];
      }
    }
  }

  lemma {:induction false} InsertSpec(x: Entry, s: seq<Entry>)
    requires Ascending(s)
    ensures Ascending(Insert(x, s))
    ensures multiset(Insert(x, s)) == multiset(s) + multiset{x}
    decreases |s|
  {
    InsertPerm(x, s);
    if s != [] && IndexValue(x.0) >= IndexValue(s[0].0) {
      AscendingTail(s);
      InsertSpec(x, s[1..]);
      InsertAbove(x, s[1..], IndexValue(s[0].0));
      ConsAscending(s[0], Insert(x, s[1..]));
    } else if s != [] {
      ConsAscending(x, s);
    }
  }

  lemma {:induction false} SortByIndexSpec(s: seq<Entry>)
    ensures Ascending(SortByIndex(s))
    ensures multiset(SortByIndex(s)) == multiset(s)
    decreases |s|
  {
    if s != [] {
      var init := s[..|s| - 1];
      SortByIndexSpec(init);
      InsertSpec(s[|s| - 1], SortByIndex(init));
      assert s == init + [s[|s| - 1]];
    }
  }

  /** `Object.entries` lists every property once: the array-index keys
      first, in ascending numeric order, then the other keys in creation
      order. */
  lemma EntriesSpec(params: seq<Entry>)
    ensures multiset(ObjectEntries(params)) == multiset(params)
    ensures var idx := SortByIndex(Filter(params, IsIndexEntry));
      && ObjectEntries(params)[..|idx|] == idx
      && Ascending(idx)
      && (forall i :: 0 <= i < |idx| ==> IsArrayIndex(idx[i].0))
      && ObjectEntries(params)[|idx|..] == Filter(params, IsNamedEntry)
  {
    var ix := Filter(params, IsIndexEntry);
    var idx := SortByIndex(ix);
    SortByIndexSpec(ix);
    FilterSpec(params, IsIndexEntry);
    FilterSplits(params, IsIndexEntry, IsNamedEntry);
    forall i | 0 <= i < |idx| ensures IsArrayIndex(idx[i].0) {
      assert idx[i] in multiset(ix);
    }
  }

  /** With no array-index key the entries keep creation order. */
  lemma EntriesOfNamedKeys(params: seq<Entry>)
    requires forall i :: 0 <= i < |params| ==> !IsArrayIndex(params[i].0)
    ensures ObjectEntries(params) == params
  {
    FilterDropsAll(params, IsIndexEntry);
    FilterKeepsAll(params, IsNamedEntry);
  }

  // ---------------------------------------------------------------------------
  // URLSearchParams

  /** `searchParams.toString()`: `name=value` pairs joined by "&". */
  function Serialize(pairs: seq<Entry>, encode: string -> string): (q: string)
    ensures q == "" <==> pairs == []
  {
    if pairs == [] then ""
    else
      var last := encode(pairs[|pairs| - 1].0) + "=" + encode(pairs[|pairs| - 1].1);
      var init := Serialize(pairs[..|pairs| - 1], encode);
      assert last[|encode(pairs[|pairs| - 1].0)|] == '=';
      if init == "" then last else init + "&" + last
  }

  /** The URL `buildApiUrl(endpoint, params)` returns. */
  function ApiUrl(endpoint: Endpoint, params: Option<seq<Entry>>, encode: string -> string): string
  {
    var url := BaseUrl + EndpointPath(endpoint);
    if params.None? then url
    else
      var query := Serialize(Filter(ObjectEntries(params.value), HasValue), encode);
      url + (if query != "" then "?" + query else "")
  }

  /** `buildApiUrl(endpoint, params)`: append each entry with a non-empty
      value to the search parameters, then add the query only when it is
      not empty. */
  method BuildApiUrl(endpoint: Endpoint, params: Option<seq<Entry>>, encode: string -> string) returns (r: string)
    ensures r == ApiUrl(endpoint, params, encode)
  {
    var url := BaseUrl + EndpointPath(endpoint);
    if params.None? {
      return url;
    }
    var entries := ObjectEntries(params.value);
    var searchParams: seq<Entry> := [];
    for i := 0 to |entries|
      invariant searchParams == Filter(entries[..i], HasValue)
    {
      FilterStep(entries, i, HasValue);
      if entries[i].1 != "" {
        searchParams := searchParams + [entries[i]];
      }
    }
    assert entries[..|entries|] == entries;
    var query := Serialize(searchParams, encode);
    r := url + (if query != "" then "?" + query else "");
  }

  /** Without parameters, or with none that has a value, the URL is the
      base URL followed by the endpoint path, with no "?". */
  lemma ApiUrlWithoutQuery(endpoint: Endpoint, params: Option<seq<Entry>>, encode: string -> string)
    requires params.Some? ==> forall i :: 0 <= i < |params.value| ==> params.value[i].1 == ""
    ensures ApiUrl(endpoint, params, encode) == BaseUrl + EndpointPath(endpoint)
  {
    if params.Some? {
      var entries := ObjectEntries(params.value);
      FilterSpec(entries, HasValue);
      forall i | 0 <= i < |entries| ensures !HasValue(entries[i]) {
        KeptMembers(params.value, entries[i]);
      }
      FilterDropsAll(entries, HasValue);
    }
  }

  /** The entries that survive are exactly the parameters with a value. */
  lemma KeptMembers(params: seq<Entry>, e: Entry)
    ensures e in Filter(ObjectEntries(params), HasValue) <==> e in params && e.1 != ""
  {
    var entries := ObjectEntries(params);
    EntriesSpec(params);
    FilterSpec(entries, HasValue);
    assert (e in entries) == (e in multiset(entries));
    assert (e in params) == (e in multiset(params));
  }

  /** Otherwise the URL is the base URL, the path, "?" and the serialised
      entries that have a value, in `Object.entries` order; those are
      exactly the parameters with a non-empty value. */
  lemma ApiUrlWithQuery(endpoint: Endpoint, params: seq<Entry>, encode: string -> string)
    requires exists i :: 0 <= i < |params| && params[i].1 != ""
    ensures var kept := Filter(ObjectEntries(params), HasValue);
      && ApiUrl(endpoint, Some(params), encode) == BaseUrl + EndpointPath(endpoint) + "?" + Serialize(kept, encode)
      && (forall e :: e in kept <==> e in params && e.1 != "")
  {
    var kept := Filter(ObjectEntries(params), HasValue);
    var i :| 0 <= i < |params| && params[i].1 != "";
    KeptMembers(params, params[i]);
    assert Serialize(kept, encode) != "";
    forall e ensures e in kept <==> e in params && e.1 != "" {
      KeptMembers(params, e);
    }
  }

  /** With only non-numeric keys the surviving parameters keep creation
      order. */
  lemma ApiUrlOfNamedKeys(endpoint: Endpoint, params: seq<Entry>, encode: string -> string)
    requires forall i :: 0 <= i < |params| ==> !IsArrayIndex(params[i].0)
    ensures var q := Serialize(Filter(params, HasValue), encode);
      ApiUrl(endpoint, Some(params), encode) == BaseUrl + EndpointPath(endpoint) + (if q != "" then "?" + q else "")
  {
    EntriesOfNamedKeys(params);
  }
}
