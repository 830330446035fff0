/**
 * The URL composer (`lib/urlUtils.ts`): split a landing URL into its base
 * and query parameters, drop every `utm_*` parameter, add the new UTM
 * parameters and write the URL back with percent-encoded keys and values.
 */
module UrlUtils {
  import opened Wrappers
  import opened Text
  import opened Dict
  import opened UriComponent

  /** A query as a JavaScript object: decoded key to decoded value. */
  type Params = Entries<string>

  datatype ParsedUrl = ParsedUrl(baseUrl: string, params: Params, hasQuery: bool)

  /** `url.split('?')[1]`: the text between the first and second `?`, or None. */
  function QuerySegment(url: string): Option<string>
  {
    var parts := Split(url, '?');
    if |parts| >= 2 then Some(parts[1]) else None
  }

  /**
   * `const [key, value] = pair.split('=')` and the test `key && value`:
   * the decoded pair when both pieces are non-empty.
   */
  function PairOf(pair: string): Option<(string, string)>
  {
    var kv := Split(pair, '=');
    if kv[0] != "" && |kv| >= 2 && kv[1] != "" then Some((Decode(kv[0]), Decode(kv[1])))
    else None
  }

  /** The parameters the `forEach` over `pairs` assigns, one pair after another. */
  function ParsePairs(pairs: seq<string>): Params
  {
    if |pairs| == 0 then []
    else
      var params := ParsePairs(pairs[..|pairs| - 1]);
      match PairOf(pairs[|pairs| - 1])
      case Some((k, v)) => Put(params, k, v)
      case None => params
  }

  /** What `parseUrl(url)` returns. */
  function ParsedOf(url: string): ParsedUrl
  {
    var q := QuerySegment(url);
    var hasQuery := q.Some? && q.value != "";
    ParsedUrl(Split(url, '?')[0], if hasQuery then ParsePairs(Split(q.value, '&')) else [], hasQuery)
  }

  /** `parseUrl`. */
  method ParseUrl(url: string) returns (parsed: ParsedUrl)
    ensures parsed == ParsedOf(url)
  {
    var parts := Split(url, '?');
    var params: Params := [];
    var hasQuery := false;
    if |parts| >= 2 && parts[1] != "" {
      hasQuery := true;
      var pairs := Split(parts[1], '&');
      var i := 0;
      while i < |pairs|
        invariant 0 <= i <= |pairs|
        invariant params == ParsePairs(pairs[..i])
      {
        assert pairs[..i + 1][..i] == pairs[..i];
        var kv := Split(pairs[i], '=');
        if kv[0] != "" && |kv| >= 2 && kv[1] != "" {
          params := Put(params, Decode(kv[0]), Decode(kv[1]));
        }
        i := i + 1;
      }
      assert pairs[..|pairs|] == pairs;
    }
    parsed := ParsedUrl(parts[0], params, hasQuery);
  }

  /**
   * The base is the text before the first `?` (all of the URL without one);
   * the query is the text between the first and the second `?`, and what
   * follows a second `?` is not read. `hasQuery` holds exactly when that
   * segment is non-empty.
   */
  lemma ParsedSegments(url: string)
    ensures '?' !in ParsedOf(url).baseUrl
    ensures '?' !in url ==> ParsedOf(url).baseUrl == url && !ParsedOf(url).hasQuery
    ensures '?' in url ==> (
      && QuerySegment(url).Some?
      && var q := QuerySegment(url).value;
         && '?' !in q
         && ParsedOf(url).baseUrl + "?" + q <= url
         && (|ParsedOf(url).baseUrl + "?" + q| == |url| || url[|ParsedOf(url).baseUrl + "?" + q|] == '?'))
    ensures ParsedOf(url).hasQuery <==> QuerySegment(url).Some? && QuerySegment(url).value != ""
  {
    var parts := Split(url, '?');
    SplitFirstPiece(url, '?');
    SplitPiecesFree(url, '?');
    JoinSplit(url, '?');
    if '?' in url {
      var i := FirstIndex(url, '?');
      var rest := url[i + 1..];
      assert parts == [url[..i]] + Split(rest, '?');
      SplitFirstPiece(rest, '?');
      assert parts[1] == Split(rest, '?')[0];
      assert url == url[..i] + "?" + rest;
    }
  }

  /** Parsing keeps every key once, with non-empty key and value. */
  lemma {:induction false} ParsePairsWellFormed(pairs: seq<string>)
    ensures UniqueKeys(ParsePairs(pairs))
    ensures forall i :: 0 <= i < |ParsePairs(pairs)| ==> Filled(ParsePairs(pairs)[i].0, ParsePairs(pairs)[i].1)
  {
    if |pairs| > 0 {
      var init := ParsePairs(pairs[..|pairs| - 1]);
      ParsePairsWellFormed(pairs[..|pairs| - 1]);
      match PairOf(pairs[|pairs| - 1])
      case Some((k, v)) =>
        var kv := Split(pairs[|pairs| - 1], '=');
        DecodeNonEmpty(kv[0]);
        DecodeNonEmpty(kv[1]);
        PutKeys(init, k, v);
        var r := Put(init, k, v);
        forall i | 0 <= i < |r| ensures Filled(r[i].0, r[i].1) {
          match FindKey(init, k)
          case Some(j) =>
          case None =>
        }
      case None =>
    }
  }

  /** The parameters of any parsed URL have unique, non-empty keys and non-empty values. */
  lemma ParsedWellFormed(url: string)
    ensures UniqueKeys(ParsedOf(url).params)
    ensures forall i :: 0 <= i < |ParsedOf(url).params| ==>
      Filled(ParsedOf(url).params[i].0, ParsedOf(url).params[i].1)
  {
    if ParsedOf(url).hasQuery {
      ParsePairsWellFormed(Split(QuerySegment(url).value, '&'));
    }
  }

  lemma DecodeNonEmpty(s: string)
    ensures s != "" ==> Decode(s) != ""
  {
  }

  /**
   * The value parsing assigns to key `k`: that of the LAST pair that is kept
   * and decodes to key `k`; a later duplicate overwrites an earlier one.
   */
  function LastValue(pairs: seq<string>, k: string): Option<string>
  {
    if |pairs| == 0 then None
    else match PairOf(pairs[|pairs| - 1])
      case Some((k', v)) => if k' == k then Some(v) else LastValue(pairs[..|pairs| - 1], k)
      case None => LastValue(pairs[..|pairs| - 1], k)
  }

  lemma {:induction false} ParsePairsLookup(pairs: seq<string>, k: string)
    ensures Lookup(ParsePairs(pairs), k) == LastValue(pairs, k)
  {
    if |pairs| > 0 {
      ParsePairsLookup(pairs[..|pairs| - 1], k);
      match PairOf(pairs[|pairs| - 1])
      case Some((k', v)) => LookupPut(ParsePairs(pairs[..|pairs| - 1]), k', v, k);
      case None =>
    }
  }

  /** `key.startsWith('utm_')`, case-sensitive. */
  predicate IsUtmKey(k: string)
  {
    StartsWith(k, "utm_")
  }

  predicate NotUtm(k: string, v: string)
  {
    !IsUtmKey(k)
  }

  /** A pair that parsing keeps: non-empty key and non-empty value. */
  predicate Filled(k: string, v: string)
  {
    k != "" && v != ""
  }

  /** The entries `removeUTMParams` keeps. */
  function WithoutUtm(params: Params): Params
  {
    Keep(params, NotUtm)
  }

  /** `removeUTMParams`. */
  method RemoveUtmParams(params: Params) returns (filtered: Params)
    requires UniqueKeys(params)
    ensures filtered == WithoutUtm(params)
  {
    filtered := [];
    var i := 0;
    while i < |params|
      invariant 0 <= i <= |params|
      invariant filtered == WithoutUtm(params[..i])
    {
      assert params[..i + 1][..i] == params[..i];
      var (key, value) := params[i];
      if !IsUtmKey(key) {
        KeepHasKey(params[..i], NotUtm, key);
        PutAbsent(filtered, key, value);
        filtered := Put(filtered, key, value);
      }
      i := i + 1;
    }
    assert params[..|params|] == params;
  }

  /**
   * `removeUTMParams` keeps exactly the entries whose key does not start
   * with `utm_`, with their values and order.
   */
  lemma WithoutUtmContents(params: Params, k: string)
    requires UniqueKeys(params)
    ensures forall e :: e in WithoutUtm(params) <==> e in params && !IsUtmKey(e.0)
    ensures Lookup(WithoutUtm(params), k) == if IsUtmKey(k) then None else Lookup(params, k)
    ensures UniqueKeys(WithoutUtm(params))
  {
    KeepMembers(params, NotUtm);
    KeepLookup(params, NotUtm, k);
    KeepUnique(params, NotUtm);
  }

  /** `${encodeURIComponent(key)}=${encodeURIComponent(value)}`. */
  function EncodeEntry(e: (string, string)): string
  {
    Encode(e.0) + "=" + Encode(e.1)
  }

  function EncodedEntries(params: Params): (items: seq<string>)
    ensures |items| == |params|
    ensures forall i :: 0 <= i < |params| ==> items[i] == EncodeEntry(params[i])
  {
    seq(|params|, i requires 0 <= i < |params| => EncodeEntry(params[i]))
  }

  /** `encodeParams`: the encoded entries in order, joined by `&`. */
  function EncodeParams(params: Params): (query: string)
    ensures query == "" <==> params == []
  {
    var items := EncodedEntries(params);
    assert |items| > 0 ==> items[0][|Encode(params[0].0)|] == '=';
    Join(items, "&")
  }

  /** Splitting an encoded entry at `=` gives its two encoded halves. */
  lemma PairOfEncoded(e: (string, string))
    ensures PairOf(EncodeEntry(e)) == if Filled(e.0, e.1) then Some(e) else None
  {
    EncodeHasNoDelimiters(e.0);
    EncodeHasNoDelimiters(e.1);
    var parts := [Encode(e.0), Encode(e.1)];
    assert Join(parts, "=") == EncodeEntry(e) by {
      assert parts[1..] == [Encode(e.1)];
    }
    SplitJoin(parts, '=');
    DecodeEncode(e.0);
    DecodeEncode(e.1);
  }

  /**
   * The query written by `encodeParams` parses back to the same entries,
   * less those with an empty key or value (which the parser drops).
   */
  lemma {:induction false} ParseEncodedEntries(params: Params)
    requires UniqueKeys(params)
    ensures ParsePairs(EncodedEntries(params)) == Keep(params, Filled)
  {
    if |params| > 0 {
      var init := params[..|params| - 1];
      var last := params[|params| - 1];
      var items := EncodedEntries(params);
      assert items[..|items| - 1] == EncodedEntries(init);
      ParseEncodedEntries(init);
      PairOfEncoded(last);
      if Filled(last.0, last.1) {
        KeepHasKey(init, Filled, last.0);
        PutAbsent(Keep(init, Filled), last.0, last.1);
      }
    }
  }

  lemma ParseEncodedQuery(params: Params)
    requires UniqueKeys(params)
    ensures ParsePairs(Split(EncodeParams(params), '&')) == Keep(params, Filled)
  {
    var items := EncodedEntries(params);
    if |items| == 0 {
      assert Split("", '&') == [""];
      assert PairOf("") == None;
    } else {
      forall i | 0 <= i < |items| ensures '&' !in items[i] {
        EncodeHasNoDelimiters(params[i].0);
        EncodeHasNoDelimiters(params[i].1);
      }
      SplitJoin(items, '&');
    }
    ParseEncodedEntries(params);
  }

  /** The second argument of `buildUrlWithUTM`; None marks an absent optional key. */
  datatype UtmArgs = UtmArgs(
    source: string, medium: string, campaign: string,
    content: Option<string>, term: Option<string>)

  /** JavaScript truthiness of an optional string. */
  predicate Truthy(o: Option<string>)
  {
    o.Some? && o.value != ""
  }

  /** The UTM entries `buildUrlWithUTM` writes, in the order it writes them. */
  function UtmEntries(a: UtmArgs): Params
  {
    [("utm_source", a.source), ("utm_medium", a.medium), ("utm_campaign", a.campaign)]
    + (if Truthy(a.content) then [("utm_content", a.content.value)] else [])
    + (if Truthy(a.term) then [("utm_term", a.term.value)] else [])
  }

  /** `allParams`: the spread of the cleaned parameters, then the UTM entries assigned in order. */
  function MergedParams(clean: Params, a: UtmArgs): Params
  {
    PutAll(clean, UtmEntries(a))
  }

  /** The string `buildUrlWithUTM(url, a)` returns. */
  function ComposedUrl(url: string, a: UtmArgs): string
  {
    var parsed := ParsedOf(url);
    parsed.baseUrl + "?" + EncodeParams(MergedParams(WithoutUtm(parsed.params), a))
  }

  /** `buildUrlWithUTM`. */
  method BuildUrlWithUtm(baseUrl: string, utmParams: UtmArgs) returns (url: string)
    ensures url == ComposedUrl(baseUrl, utmParams)
  {
    var parsed := ParseUrl(baseUrl);
    ParsedWellFormed(baseUrl);
    var cleanParams := RemoveUtmParams(parsed.params);
    var allParams := Put(Put(Put(cleanParams, "utm_source", utmParams.source),
      "utm_medium", utmParams.medium), "utm_campaign", utmParams.campaign);
    if Truthy(utmParams.content) {
      allParams := Put(allParams, "utm_content", utmParams.content.value);
    }
    if Truthy(utmParams.term) {
      allParams := Put(allParams, "utm_term", utmParams.term.value);
    }
    MergedSteps(cleanParams, utmParams);
    var queryString := EncodeParams(allParams);
    url := parsed.baseUrl + "?" + queryString;
  }

  /** The five UTM keys are `utm_` keys and pairwise distinct. */
  lemma UtmKeysDistinct()
    ensures IsUtmKey("utm_source") && IsUtmKey("utm_medium") && IsUtmKey("utm_campaign")
    ensures IsUtmKey("utm_content") && IsUtmKey("utm_term")
    ensures "utm_source" != "utm_medium" && "utm_source" != "utm_campaign"
    ensures "utm_source" != "utm_content" && "utm_source" != "utm_term"
    ensures "utm_medium" != "utm_campaign" && "utm_medium" != "utm_content" && "utm_medium" != "utm_term"
    ensures "utm_campaign" != "utm_content" && "utm_campaign" != "utm_term"
    ensures "utm_content" != "utm_term"
  {
    assert "utm_source"[4] == 's' && "utm_medium"[4] == 'm' && "utm_campaign"[5] == 'a';
    assert "utm_content"[5] == 'o' && "utm_term"[4] == 't' && "utm_campaign"[4] == 'c';
    assert |"utm_source"| == 10 && |"utm_medium"| == 10 && |"utm_campaign"| == 12;
    assert |"utm_content"| == 11 && |"utm_term"| == 8;
  }

  /** A list with no `utm_` key has no entry for any `utm_` key. */
  lemma NoUtmKeyIn(d: Params, k: string)
    requires forall i :: 0 <= i < |d| ==> !IsUtmKey(d[i].0)
    requires IsUtmKey(k)
    ensures !HasKey(d, k)
  {
  }

  /** The merged list is the three fixed assignments followed by the two conditional ones. */
  lemma MergedSteps(clean: Params, a: UtmArgs)
    ensures MergedParams(clean, a) ==
      var s3 := Put(Put(Put(clean, "utm_source", a.source), "utm_medium", a.medium), "utm_campaign", a.campaign);
      var s4 := if Truthy(a.content) then Put(s3, "utm_content", a.content.value) else s3;
      if Truthy(a.term) then Put(s4, "utm_term", a.term.value) else s4
  {
    var e1, e2, e3 := ("utm_source", a.source), ("utm_medium", a.medium), ("utm_campaign", a.campaign);
    PutAllSnoc(clean, [], e1);
    PutAllSnoc(clean, [e1], e2);
    PutAllSnoc(clean, [e1, e2], e3);
    assert [] + [e1] == [e1] && [e1] + [e2] == [e1, e2] && [e1, e2] + [e3] == [e1, e2, e3];
    var u3 := [e1, e2, e3];
    var u4 := if Truthy(a.content) then u3 + [("utm_content", a.content.value)] else u3;
    if Truthy(a.content) {
      PutAllSnoc(clean, u3, ("utm_content", a.content.value));
    }
    if Truthy(a.term) {
      PutAllSnoc(clean, u4, ("utm_term", a.term.value));
    }
    assert UtmEntries(a) == if Truthy(a.term) then u4 + [("utm_term", a.term.value)] else u4;
  }

  /** The UTM entries are `utm_` entries, each key once. */
  lemma UtmEntriesUnique(a: UtmArgs)
    ensures UniqueKeys(UtmEntries(a))
    ensures forall i :: 0 <= i < |UtmEntries(a)| ==> IsUtmKey(UtmEntries(a)[i].0)
  {
    UtmKeysDistinct();
  }

  /**
   * When the cleaned parameters hold no `utm_` key, `allParams` is those
   * parameters in their order followed by the UTM entries, each key once.
   */
  lemma MergedShape(clean: Params, a: UtmArgs)
    requires UniqueKeys(clean)
    requires forall i :: 0 <= i < |clean| ==> !IsUtmKey(clean[i].0)
    ensures MergedParams(clean, a) == clean + UtmEntries(a)
    ensures UniqueKeys(MergedParams(clean, a))
  {
    UtmEntriesUnique(a);
    UniqueConcat(clean, UtmEntries(a));
    PutAllFresh(clean, UtmEntries(a));
  }

  /**
   * The parameters `buildUrlWithUTM` encodes: `utm_source`, `utm_medium`
   * and `utm_campaign` with the new values; `utm_content` and `utm_term`
   * only when given non-empty; no other `utm_` key, so no old tag survives;
   * every other key with its value from the input parameters.
   */
  lemma MergedLookup(params: Params, a: UtmArgs, k: string)
    requires UniqueKeys(params)
    ensures Lookup(MergedParams(WithoutUtm(params), a), k) ==
      if k == "utm_source" then Some(a.source)
      else if k == "utm_medium" then Some(a.medium)
      else if k == "utm_campaign" then Some(a.campaign)
      else if k == "utm_content" then (if Truthy(a.content) then a.content else None)
      else if k == "utm_term" then (if Truthy(a.term) then a.term else None)
      else if IsUtmKey(k) then None
      else Lookup(params, k)
  {
    WithoutUtmContents(params, k);
    UtmKeysDistinct();
    var clean := WithoutUtm(params);
    var s1 := Put(clean, "utm_source", a.source);
    var s2 := Put(s1, "utm_medium", a.medium);
    var s3 := Put(s2, "utm_campaign", a.campaign);
    var s4 := if Truthy(a.content) then Put(s3, "utm_content", a.content.value) else s3;
    var s5 := if Truthy(a.term) then Put(s4, "utm_term", a.term.value) else s4;
    assert MergedParams(clean, a) == s5 by {
      MergedSteps(clean, a);
    }
    LookupPut(clean, "utm_source", a.source, k);
    LookupPut(s1, "utm_medium", a.medium, k);
    LookupPut(s2, "utm_campaign", a.campaign, k);
    if Truthy(a.content) {
      LookupPut(s3, "utm_content", a.content.value, k);
    }
    if Truthy(a.term) {
      LookupPut(s4, "utm_term", a.term.value, k);
    }
  }

  /** Cleaning unique, filled parameters leaves unique, filled parameters free of `utm_` keys. */
  lemma CleanWellFormed(params: Params)
    requires UniqueKeys(params)
    requires forall i :: 0 <= i < |params| ==> Filled(params[i].0, params[i].1)
    ensures UniqueKeys(WithoutUtm(params))
    ensures forall i :: 0 <= i < |WithoutUtm(params)| ==>
      var e := WithoutUtm(params)[i];
      !IsUtmKey(e.0) && Filled(e.0, e.1)
  {
    WithoutUtmContents(params, "");
    var clean := WithoutUtm(params);
    forall i | 0 <= i < |clean| ensures !IsUtmKey(clean[i].0) && Filled(clean[i].0, clean[i].1) {
      assert clean[i] in params;
    }
  }

  /** A written query contains no `?`. */
  lemma EncodeParamsNoQuestionMark(params: Params)
    ensures '?' !in EncodeParams(params)
  {
    forall i | 0 <= i < |params| ensures '?' !in EncodedEntries(params)[i] {
      EncodeHasNoDelimiters(params[i].0);
      EncodeHasNoDelimiters(params[i].1);
    }
    JoinFree(EncodedEntries(params), "&", '?');
  }

  /** A URL written as base, `?` and query parses into that base and query. */
  lemma ParsedOfJoined(base: string, params: Params)
    requires '?' !in base && UniqueKeys(params) && params != []
    ensures ParsedOf(base + "?" + EncodeParams(params)) == ParsedUrl(base, Keep(params, Filled), true)
  {
    var q := EncodeParams(params);
    EncodeParamsNoQuestionMark(params);
    SplitAround(base, q, '?');
    assert QuerySegment(base + "?" + q) == Some(q);
    ParseEncodedQuery(params);
  }

  /**
   * Reading the composed URL back: its base is the input's base, it always
   * has a query, and its parameters are the encoded ones less any with an
   * empty value.
   */
  lemma ComposedReadBack(url: string, a: UtmArgs)
    ensures ParsedOf(ComposedUrl(url, a)) ==
      ParsedUrl(ParsedOf(url).baseUrl, Keep(MergedParams(WithoutUtm(ParsedOf(url).params), a), Filled), true)
  {
    var base := ParsedOf(url).baseUrl;
    var clean := WithoutUtm(ParsedOf(url).params);
    var merged := MergedParams(clean, a);
    assert UniqueKeys(merged) && merged != [] by {
      ParsedWellFormed(url);
      CleanWellFormed(ParsedOf(url).params);
      MergedShape(clean, a);
    }
    assert '?' !in base by {
      ParsedSegments(url);
    }
    ParsedOfJoined(base, merged);
  }

  /**
   * What one reads back from the composed URL, key by key: the new UTM
   * values (when non-empty), no other `utm_` key, and every other parameter
   * of the input URL unchanged.
   */
  lemma ComposedUrlReadsBack(url: string, a: UtmArgs, k: string)
    ensures Lookup(ParsedOf(ComposedUrl(url, a)).params, k) ==
      if k == "utm_source" then (if a.source != "" then Some(a.source) else None)
      else if k == "utm_medium" then (if a.medium != "" then Some(a.medium) else None)
      else if k == "utm_campaign" then (if a.campaign != "" then Some(a.campaign) else None)
      else if k == "utm_content" then (if Truthy(a.content) then a.content else None)
      else if k == "utm_term" then (if Truthy(a.term) then a.term else None)
      else if IsUtmKey(k) then None
      else Lookup(ParsedOf(url).params, k)
  {
    ParsedWellFormed(url);
    ComposedReadBack(url, a);
    MergedReadBack(ParsedOf(url).params, a, k);
  }

  /**
   * What a tagged URL carries, key by key: the original base, the three fixed
   * tags when non-empty, `utm_content` and `utm_term` only when truthy, and
   * every non-UTM parameter of the original with its value.
   */
  lemma ComposedTags(url: string, a: UtmArgs)
    ensures ParsedOf(ComposedUrl(url, a)).baseUrl == ParsedOf(url).baseUrl
    ensures var params := ParsedOf(ComposedUrl(url, a)).params;
      && Lookup(params, "utm_source") == (if a.source != "" then Some(a.source) else None)
      && Lookup(params, "utm_medium") == (if a.medium != "" then Some(a.medium) else None)
      && Lookup(params, "utm_campaign") == (if a.campaign != "" then Some(a.campaign) else None)
      && Lookup(params, "utm_content") == (if Truthy(a.content) then a.content else None)
      && Lookup(params, "utm_term") == (if Truthy(a.term) then a.term else None)
      && forall k :: !IsUtmKey(k) ==> Lookup(params, k) == Lookup(ParsedOf(url).params, k)
  {
    ComposedReadBack(url, a);
    UtmKeysDistinct();
    var params := ParsedOf(ComposedUrl(url, a)).params;
    ComposedUrlReadsBack(url, a, "utm_source");
    ComposedUrlReadsBack(url, a, "utm_medium");
    ComposedUrlReadsBack(url, a, "utm_campaign");
    ComposedUrlReadsBack(url, a, "utm_content");
    ComposedUrlReadsBack(url, a, "utm_term");
    forall k | !IsUtmKey(k) ensures Lookup(params, k) == Lookup(ParsedOf(url).params, k) {
      ComposedUrlReadsBack(url, a, k);
    }
  }

  /** The merged parameters, less those with an empty value, key by key. */
  lemma MergedReadBack(params: Params, a: UtmArgs, k: string)
    requires UniqueKeys(params)
    requires forall i :: 0 <= i < |params| ==> Filled(params[i].0, params[i].1)
    ensures Lookup(Keep(MergedParams(WithoutUtm(params), a), Filled), k) ==
      if k == "utm_source" then (if a.source != "" then Some(a.source) else None)
      else if k == "utm_medium" then (if a.medium != "" then Some(a.medium) else None)
      else if k == "utm_campaign" then (if a.campaign != "" then Some(a.campaign) else None)
      else if k == "utm_content" then (if Truthy(a.content) then a.content else None)
      else if k == "utm_term" then (if Truthy(a.term) then a.term else None)
      else if IsUtmKey(k) then None
      else Lookup(params, k)
  {
    var clean := WithoutUtm(params);
    var merged := MergedParams(clean, a);
    CleanWellFormed(params);
    MergedShape(clean, a);
    KeepLookup(merged, Filled, k);
    if Lookup(params, k).Some? {
      var i := FindKey(params, k).value;
      assert Filled(params[i].0, params[i].1);
    }
    MergedLookup(params, a, k);
    FilledChain(a, k, Lookup(merged, k), Lookup(params, k));
  }

  /** Dropping an unfilled value from the merged lookup, case by case. */
  lemma FilledChain(a: UtmArgs, k: string, m: Option<string>, before: Option<string>)
    requires m ==
      if k == "utm_source" then Some(a.source)
      else if k == "utm_medium" then Some(a.medium)
      else if k == "utm_campaign" then Some(a.campaign)
      else if k == "utm_content" then (if Truthy(a.content) then a.content else None)
      else if k == "utm_term" then (if Truthy(a.term) then a.term else None)
      else if IsUtmKey(k) then None
      else before
    requires before.Some? ==> Filled(k, before.value)
    ensures (if m.Some? && Filled(k, m.value) then m else None) ==
      if k == "utm_source" then (if a.source != "" then Some(a.source) else None)
      else if k == "utm_medium" then (if a.medium != "" then Some(a.medium) else None)
      else if k == "utm_campaign" then (if a.campaign != "" then Some(a.campaign) else None)
      else if k == "utm_content" then (if Truthy(a.content) then a.content else None)
      else if k == "utm_term" then (if Truthy(a.term) then a.term else None)
      else if IsUtmKey(k) then None
      else before
  {
  }

  /** Of the UTM entries, nothing survives `removeUTMParams`. */
  lemma NoUtmLeft(a: UtmArgs)
    ensures WithoutUtm(Keep(UtmEntries(a), Filled)) == []
  {
    var u := UtmEntries(a);
    var ku := Keep(u, Filled);
    UtmEntriesUnique(a);
    KeepMembers(u, Filled);
    forall i | 0 <= i < |ku| ensures !NotUtm(ku[i].0, ku[i].1) {
      assert ku[i] in ku;
      var j :| 0 <= j < |u| && u[j] == ku[i];
    }
    KeepNone(ku, NotUtm);
  }

  /** Dropping unfilled and then `utm_` entries from the merged list leaves the cleaned parameters. */
  lemma CleanAgain(clean: Params, a: UtmArgs)
    requires forall i :: 0 <= i < |clean| ==> !IsUtmKey(clean[i].0) && Filled(clean[i].0, clean[i].1)
    ensures WithoutUtm(Keep(clean + UtmEntries(a), Filled)) == clean
  {
    var u := UtmEntries(a);
    KeepConcat(clean, u, Filled);
    KeepAll(clean, Filled);
    KeepConcat(clean, Keep(u, Filled), NotUtm);
    KeepAll(clean, NotUtm);
    NoUtmLeft(a);
  }

  /**
   * Re-tagging is idempotent: composing the same UTM parameters onto a URL
   * that already carries them returns the same URL.
   */
  lemma ComposedIdempotent(url: string, a: UtmArgs)
    ensures ComposedUrl(ComposedUrl(url, a), a) == ComposedUrl(url, a)
  {
    var clean := WithoutUtm(ParsedOf(url).params);
    assert MergedParams(clean, a) == clean + UtmEntries(a) by {
      ParsedWellFormed(url);
      CleanWellFormed(ParsedOf(url).params);
      MergedShape(clean, a);
    }
    ComposedReadBack(url, a);
    assert WithoutUtm(ParsedOf(ComposedUrl(url, a)).params) == clean by {
      ParsedWellFormed(url);
      CleanWellFormed(ParsedOf(url).params);
      CleanAgain(clean, a);
    }
  }
}
