/** The content-script detector: it wraps `window.fetch` and the
    `open`/`setRequestHeader` methods of `XMLHttpRequest`, reports any API
    key sent to a Supabase REST URL to the background, and always passes
    the call on to the original. `Page` holds what left the page (runtime
    messages, calls to the original `fetch`); an `Xhr` holds its
    remembered URL and the calls it passed to the original methods. */
module Detector {
  import opened Wrappers
  import opened Strings
  import opened Utils

  /** The three shapes `init.headers` takes: a `Headers` object (its
      entries keyed by lower-cased name), a plain record (keys as written),
      or an array of pairs. */
  datatype HeadersInit =
    | HeadersObject(fields: map<string, string>)
    | PlainObject(entries: map<string, string>)
    | PairList(pairs: seq<(string, string)>)

  /** The first argument of `fetch`: a `Request`, whose headers are a
      `Headers` object, or a string or `URL`, given by its text. */
  datatype FetchInput =
    | RequestInput(url: string, headers: map<string, string>)
    | UrlInput(href: string)

  datatype RequestInit = RequestInit(headers: Option<HeadersInit>)

  /** The `supabaseRequestDetected` message. */
  datatype DetectedMessage = DetectedMessage(url: string, apiKey: string)

  datatype FetchCall = FetchCall(input: FetchInput, init: Option<RequestInit>)

  datatype XhrCall =
    | OpenCall(httpMethod: string, url: string, async: bool, username: Option<string>, password: Option<string>)
    | SetHeaderCall(name: string, value: string)

  /** `headers.get(name)`: names are matched case-insensitively. */
  function HeadersGet(fields: map<string, string>, name: string): Option<string> {
    if Lower(name) in fields then Some(fields[Lower(name)]) else None
  }

  /** `record[name]`: an exact, case-sensitive property lookup. */
  function Property(entries: map<string, string>, name: string): Option<string> {
    if name in entries then Some(entries[name]) else None
  }

  /** `input instanceof Request ? input.url : input.toString()` */
  function FetchUrl(input: FetchInput): string {
    match input
    case RequestInput(url, _) => url
    case UrlInput(href) => href
  }

  /** `init?.headers || (input instanceof Request ? input.headers : new Headers())` */
  function FetchHeaders(input: FetchInput, init: Option<RequestInit>): (h: HeadersInit)
    ensures init.Some? && init.value.headers.Some? ==> h == init.value.headers.value
    ensures (init.None? || init.value.headers.None?) && input.RequestInput? ==> h == HeadersObject(input.headers)
    ensures (init.None? || init.value.headers.None?) && input.UrlInput? ==> h == HeadersObject(map[])
  {
    if init.Some? && init.value.headers.Some? then init.value.headers.value
    else if input.RequestInput? then HeadersObject(input.headers)
    else HeadersObject(map[])
  }

  /** The lookups the fetch wrapper tries, in order. */
  function KeyCandidates(h: HeadersInit): seq<Option<string>> {
    match h
    case HeadersObject(fields) => [HeadersGet(fields, "apikey"), HeadersGet(fields, "Authorization")]
    case PlainObject(entries) =>
      [Property(entries, "apikey"), Property(entries, "Apikey"), Property(entries, "APIKey"), Property(entries, "Authorization")]
    case PairList(_) => []
  }

  /** The key the fetch wrapper finds: the first truthy lookup. An array
      of pairs is an object too, but none of the lookups finds anything in
      it. */
  function FetchApiKey(h: HeadersInit): (key: Option<string>)
    ensures key.Some? ==> key.value != ""
    ensures key.Some? ==> exists i :: 0 <= i < |KeyCandidates(h)| && KeyCandidates(h)[i] == key &&
                                      forall j :: 0 <= j < i ==> !Truthy(KeyCandidates(h)[j])
    ensures key.None? <==> forall i :: 0 <= i < |KeyCandidates(h)| ==> !Truthy(KeyCandidates(h)[i])
    ensures h.PairList? ==> key.None?
  {
    FirstTruthy(KeyCandidates(h))
  }

  /** The names the wrappers look for, folded. */
  lemma KeyHeaderNamesFolded()
    ensures Lower("apikey") == "apikey"
    ensures Lower("Authorization") == "authorization"
    ensures Lower("authorization") == "authorization"
  {
  }

  /** In a `Headers` object a non-empty `apikey` entry is taken whatever
      `Authorization` holds. */
  lemma HeadersObjectPrefersApiKey(fields: map<string, string>)
    requires "apikey" in fields && fields["apikey"] != ""
    ensures FetchApiKey(HeadersObject(fields)) == Some(fields["apikey"])
  {
    KeyHeaderNamesFolded();
    assert KeyCandidates(HeadersObject(fields))[0] == Some(fields["apikey"]);
  }

  /** A plain record is read under four exact spellings, `Authorization`
      last. */
  lemma PlainObjectFallsBackToAuthorization(entries: map<string, string>)
    requires "apikey" !in entries && "Apikey" !in entries && "APIKey" !in entries
    requires "Authorization" in entries && entries["Authorization"] != ""
    ensures FetchApiKey(PlainObject(entries)) == Some(entries["Authorization"])
  {
    var cs := KeyCandidates(PlainObject(entries));
    assert cs == [None, None, None, Some(entries["Authorization"])];
    assert Truthy(cs[3]);
  }

  /** The spellings are tried in order: a present but empty `apikey`
      falls through to `Apikey`, which wins over `APIKey` and
      `Authorization`. */
  lemma PlainObjectSpellingOrder(entries: map<string, string>)
    requires "apikey" in entries && entries["apikey"] == ""
    requires "Apikey" in entries && entries["Apikey"] != ""
    ensures FetchApiKey(PlainObject(entries)) == Some(entries["Apikey"])
  {
    var cs := KeyCandidates(PlainObject(entries));
    assert "apikey"[0] != "Apikey"[0];
    assert cs[0] == Some("") && cs[1] == Some(entries["Apikey"]);
    assert Truthy(cs[1]);
  }

  /** The record lookup is case-sensitive: a key under `APIKEY` is not
      found. */
  lemma PlainObjectIsCaseSensitive(key: string)
    ensures FetchApiKey(PlainObject(map["APIKEY" := key])) == None
  {
    var entries := map["APIKEY" := key];
    assert "apikey"[0] != "APIKEY"[0] && "Apikey"[1] != "APIKEY"[1] && "APIKey"[5] != "APIKEY"[5];
    assert |"Authorization"| != |"APIKEY"|;
    assert KeyCandidates(PlainObject(entries)) == [None, None, None, None];
  }

  /** What the fetch wrapper reports, if anything. */
  function FetchReport(input: FetchInput, init: Option<RequestInit>): (m: Option<DetectedMessage>)
    ensures m.Some? <==> IsSupabaseRestUrl(FetchUrl(input)) && FetchApiKey(FetchHeaders(input, init)).Some?
    ensures m.Some? ==> m.value.url == FetchUrl(input)
    ensures m.Some? ==> var key := FetchApiKey(FetchHeaders(input, init)).value;
      && (StartsWith(key, BearerPrefix) ==> BearerPrefix + m.value.apiKey == key)
      && (!StartsWith(key, BearerPrefix) ==> m.value.apiKey == key)
  {
    if IsSupabaseRestUrl(FetchUrl(input)) then
      var apiKey := FetchApiKey(FetchHeaders(input, init));
      if apiKey.Some? then Some(DetectedMessage(FetchUrl(input), CleanApiKey(apiKey.value))) else None
    else None
  }

  /** A bearer token in `Authorization` is reported without its prefix. */
  lemma FetchReportStripsBearer(url: string, entries: map<string, string>, token: string)
    requires IsSupabaseRestUrl(url)
    requires "apikey" !in entries && "Apikey" !in entries && "APIKey" !in entries
    requires "Authorization" in entries && entries["Authorization"] == BearerPrefix + token
    ensures FetchReport(UrlInput(url), Some(RequestInit(Some(PlainObject(entries))))) == Some(DetectedMessage(url, token))
  {
    PlainObjectFallsBackToAuthorization(entries);
    CleanApiKeyRemovesPrefix(token);
  }

  /** The header names `setRequestHeader` reacts to, in any case. */
  predicate IsKeyHeaderName(name: string) {
    Lower(name) == "apikey" || Lower(name) == "authorization"
  }

  /** Any capitalisation of the two names counts. */
  lemma KeyHeaderNameAnyCase(name: string)
    ensures IsKeyHeaderName(name) <==> SameIgnoringCase(name, "apikey") || SameIgnoringCase(name, "authorization")
  {
    LowerMatches(name, "apikey");
    LowerMatches(name, "authorization");
  }

  /** What `setRequestHeader` reports, given the URL its `open` recorded. */
  function XhrReport(recordedUrl: Option<string>, name: string, value: string): (m: Option<DetectedMessage>)
    ensures m.Some? <==> IsKeyHeaderName(name) && recordedUrl.Some? && IsSupabaseRestUrl(recordedUrl.value)
    ensures m.Some? ==> m.value.url == recordedUrl.value
    ensures m.Some? ==> StartsWith(value, BearerPrefix) ==> BearerPrefix + m.value.apiKey == value
    ensures m.Some? ==> !StartsWith(value, BearerPrefix) ==> m.value.apiKey == value
  {
    if IsKeyHeaderName(name) && Truthy(recordedUrl) && IsSupabaseRestUrl(recordedUrl.value) then
      Some(DetectedMessage(recordedUrl.value, CleanApiKey(value)))
    else None
  }

  /** Unlike the fetch path, the XHR path reports an empty value too. */
  lemma XhrReportsEmptyValue(url: string)
    requires IsSupabaseRestUrl(url)
    ensures XhrReport(Some(url), "apikey", "") == Some(DetectedMessage(url, ""))
  {
    assert Lower("apikey") == "apikey";
  }

  /** The two paths agree on a request carrying only a non-empty `apikey`
      header: the same URL and the same key reach the background. */
  lemma FetchAndXhrAgree(url: string, key: string)
    requires key != ""
    ensures FetchReport(RequestInput(url, map["apikey" := key]), None) == XhrReport(Some(url), "apikey", key)
  {
    KeyHeaderNamesFolded();
    var fields := map["apikey" := key];
    assert |"authorization"| != |"apikey"|;
    assert KeyCandidates(HeadersObject(fields))[0] == Some(key);
  }

  /** The page as the patched `fetch` sees it. */
  class Page {
    var sent: seq<DetectedMessage>
    var fetches: seq<FetchCall>

    constructor ()
      ensures sent == [] && fetches == []
    {
      sent, fetches := [], [];
    }

    /** The `window.fetch` wrapper: at most one report, then the original
        `fetch` with the caller's own arguments. */
    method Fetch(input: FetchInput, init: Option<RequestInit>)
      modifies this
      ensures sent == old(sent) + (if FetchReport(input, init).Some? then [FetchReport(input, init).value] else [])
      ensures fetches == old(fetches) + [FetchCall(input, init)]
    {
      var url := FetchUrl(input);
      if IsSupabaseRestUrl(url) {
        var headers := FetchHeaders(input, init);
        var apiKey := FetchApiKey(headers);
        if apiKey.Some? {
          var cleanApiKey := if StartsWith(apiKey.value, BearerPrefix) then apiKey.value[7..] else apiKey.value;
          sent := sent + [DetectedMessage(url, cleanApiKey)];
        }
      }
      fetches := fetches + [FetchCall(input, init)];
    }
  }

  /** One `XMLHttpRequest` instance under the patched prototype. */
  class Xhr {
    /** `_supabaseUrl`, set by `open`. */
    var recordedUrl: Option<string>
    /** The calls passed on to the original prototype methods. */
    var calls: seq<XhrCall>

    constructor ()
      ensures recordedUrl == None && calls == []
    {
      recordedUrl, calls := None, [];
    }

    /** The `open` wrapper: remember the URL, then call the original open;
        an omitted `async` is passed as its default, `true`. */
    method Open(httpMethod: string, url: string, async: Option<bool>, username: Option<string>, password: Option<string>)
      modifies this
      ensures recordedUrl == Some(url)
      ensures calls == old(calls) + [OpenCall(httpMethod, url, async.GetOr(true), username, password)]
    {
      recordedUrl := Some(url);
      calls := calls + [OpenCall(httpMethod, url, async.GetOr(true), username, password)];
    }

    /** The `setRequestHeader` wrapper: report a key header of a request
        opened on a Supabase REST URL, then call the original. */
    method SetRequestHeader(name: string, value: string, page: Page)
      modifies this, page
      ensures recordedUrl == old(recordedUrl) && page.fetches == old(page.fetches)
      ensures page.sent == old(page.sent) + (if XhrReport(recordedUrl, name, value).Some? then [XhrReport(recordedUrl, name, value).value] else [])
      ensures calls == old(calls) + [SetHeaderCall(name, value)]
    {
      var lower := Lower(name);
      if (lower == "apikey" || lower == "authorization") && recordedUrl.Some? && recordedUrl.value != ""
         && IsSupabaseRestUrl(recordedUrl.value)
      {
        var cleanApiKey := if StartsWith(value, BearerPrefix) then value[7..] else value;
        page.sent := page.sent + [DetectedMessage(recordedUrl.value, cleanApiKey)];
      }
      calls := calls + [SetHeaderCall(name, value)];
    }
  }

  /** A request opened on a Supabase REST URL reports a bearer token set
      under a key header name, without its prefix. */
  method OpenThenSetHeader(url: string, name: string, token: string) returns (sent: seq<DetectedMessage>)
    requires IsSupabaseRestUrl(url) && IsKeyHeaderName(name)
    ensures sent == [DetectedMessage(url, token)]
  {
    var page := new Page();
    var xhr := new Xhr();
    xhr.Open("GET", url, None, None, None);
    CleanApiKeyRemovesPrefix(token);
    xhr.SetRequestHeader(name, BearerPrefix + token, page);
    assert xhr.calls == [OpenCall("GET", url, true, None, None), SetHeaderCall(name, BearerPrefix + token)];
    sent := page.sent;
  }
}
