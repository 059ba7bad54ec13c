/** The background coordinator: it watches outgoing Supabase REST requests
    and the page detector's reports for an API key, keeps the project URL
    and the key in the session store, injects the prompt UI at each detected
    key until `rlsPrompted` is set, and runs `checkRls` when the UI asks. Chrome's storage is the three fields of
    `Coordinator`; injecting the UI script, the probe queries, messages to
    a tab and `sendResponse` calls are appended, in order, to `effects`. */
module Background {
  import opened Wrappers
  import opened Strings
  import opened Utils
  import opened RlsChecker

  /** A request header as the webRequest API reports it; `value` is
      optional there. */
  datatype HttpHeader = HttpHeader(name: string, value: Option<string>)

  /** The `rlsCheckResult` message sent to the tab. */
  datatype RlsCheckResultMessage =
    | Succeeded(disabledTables: seq<RlsCheckResult>)
    | Failed(error: string)

  /** What a handler passes to `sendResponse`. */
  datatype Response =
    | StoredData(supabaseUrl: Option<string>, supabaseKey: Option<string>)
    | Acknowledged

  datatype Effect =
    | InjectUi(tabId: int)
    | Network(query: Query)
    | SendToTab(tabId: int, message: RlsCheckResultMessage)
    | Respond(response: Response)

  /** The runtime messages, by their `action`. */
  datatype Message =
    | GetSupabaseData
    | SetRlsPrompted(value: bool)
    | SupabaseRequestDetected(url: string, apiKey: Option<string>)
    | Execute(supabaseUrl: string, supabaseKey: string, tables: seq<string>)
    | OtherAction(action: string)

  /** The pair a detection stores. */
  datatype Credential = Credential(url: string, key: string)

  const ApiKeyHeader: string := "apikey"

  /** The index `requestHeaders.find` stops at: the first header whose
      lower-cased name is `apikey`. */
  function FindApiKeyHeader(headers: seq<HttpHeader>): (r: Option<nat>)
    ensures r.Some? ==> r.value < |headers| && Lower(headers[r.value].name) == ApiKeyHeader
    ensures r.Some? ==> forall j :: 0 <= j < r.value ==> Lower(headers[j].name) != ApiKeyHeader
    ensures r.None? ==> forall j :: 0 <= j < |headers| ==> Lower(headers[j].name) != ApiKeyHeader
    decreases |headers|
  {
    if headers == [] then None
    else if Lower(headers[0].name) == ApiKeyHeader then Some(0)
    else
      var rest := FindApiKeyHeader(headers[1..]);
      assert forall j :: 1 <= j < |headers| ==> headers[j] == headers[1..][j - 1];
      if rest.Some? then Some(rest.value + 1) else None
  }

  /** `info.requestHeaders?.find(...)?.value`: no `Bearer ` strip and no
      fall-back to `Authorization`. */
  function HeaderApiKey(requestHeaders: Option<seq<HttpHeader>>): (key: Option<string>)
    ensures key.Some? ==> requestHeaders.Some?
    ensures key.Some? ==>
      exists i :: 0 <= i < |requestHeaders.value| && Lower(requestHeaders.value[i].name) == ApiKeyHeader && requestHeaders.value[i].value == key
  {
    if requestHeaders.None? then None
    else
      match FindApiKeyHeader(requestHeaders.value)
      case None => None
      case Some(i) => requestHeaders.value[i].value
  }

  /** A header name counts as `apikey` in any capitalisation. */
  lemma ApiKeyHeaderAnyCase(name: string)
    ensures Lower(name) == ApiKeyHeader <==> SameIgnoringCase(name, ApiKeyHeader)
  {
    LowerMatches(name, ApiKeyHeader);
  }

  /** A header list whose first `apikey` header (in any case) carries a
      value yields that value, whatever follows it. */
  lemma {:induction false} FirstApiKeyHeaderWins(before: seq<HttpHeader>, h: HttpHeader, after: seq<HttpHeader>)
    requires forall j :: 0 <= j < |before| ==> Lower(before[j].name) != ApiKeyHeader
    requires Lower(h.name) == ApiKeyHeader
    ensures HeaderApiKey(Some(before + [h] + after)) == h.value
    decreases |before|
  {
    var hs := before + [h] + after;
    if before == [] {
      assert hs[0] == h;
    } else {
      assert hs[1..] == before[1..] + [h] + after;
      FirstApiKeyHeaderWins(before[1..], h, after);
      assert hs[0] == before[0];
    }
  }

  function SupabaseUrl(projectRef: string): string {
    "https://" + projectRef + ".supabase.co"
  }

  /** The stored URL determines the project reference. */
  lemma SupabaseUrlInjective(a: string, b: string)
    requires SupabaseUrl(a) == SupabaseUrl(b)
    ensures a == b
  {
    assert |a| == |b|;
    assert a == SupabaseUrl(a)[8..8 + |a|];
    assert b == SupabaseUrl(b)[8..8 + |b|];
  }

  /** What a detection of `apiKey` stores: the listeners derive the
      reference with the same rule as `decodeJwtAndGetProjectRef`, so they
      accept exactly the keys it accepts. */
  function CredentialFor(apiKey: string, decode: string -> Option<Payload>): (r: Option<Credential>)
    ensures r.Some? <==> DecodeJwtAndGetProjectRef(apiKey, decode).Success?
    ensures r.Some? ==> r.value == Credential(SupabaseUrl(DecodeJwtAndGetProjectRef(apiKey, decode).value.projectRef), apiKey)
  {
    match decode(apiKey)
    case None => None
    case Some(payload) =>
      match DeriveRef(payload)
      case None => None
      case Some(projectRef) => Some(Credential(SupabaseUrl(projectRef), apiKey))
  }

  /** A stored flag is truthy only when it is `true`. */
  predicate Prompted(flag: Option<bool>) {
    flag == Some(true)
  }

  /** `sender.tab && sender.tab.id` (or `info.tabId`) as a target tab: a
      missing or zero id is falsy. */
  function TabTarget(tabId: Option<int>): Option<int> {
    if tabId.Some? && tabId.value != 0 then tabId else None
  }

  /** The UI script is injected only while `rlsPrompted` is not `true`
      (the user has not dismissed the prompt) and there is a target tab. */
  function PromptEffects(rlsPrompted: Option<bool>, target: Option<int>): (es: seq<Effect>)
    ensures es != [] <==> !Prompted(rlsPrompted) && target.Some?
    ensures es != [] ==> es == [InjectUi(target.value)]
  {
    if !Prompted(rlsPrompted) && target.Some? then [InjectUi(target.value)] else []
  }

  /** `results.filter(r => r.rlsDisabled)`. */
  function DisabledTables(results: seq<RlsCheckResult>): (r: seq<RlsCheckResult>)
    ensures |r| <= |results|
    ensures forall e :: e in r <==> e in results && e.rlsDisabled
    decreases |results|
  {
    if results == [] then []
    else (if results[0].rlsDisabled then [results[0]] else []) + DisabledTables(results[1..])
  }

  lemma {:induction false} DisabledTablesAppend(a: seq<RlsCheckResult>, b: seq<RlsCheckResult>)
    ensures DisabledTables(a + b) == DisabledTables(a) + DisabledTables(b)
    decreases |a|
  {
    if a == [] {
      assert a + b == b;
    } else {
      assert (a + b)[1..] == a[1..] + b;
      DisabledTablesAppend(a[1..], b);
    }
  }

  /** The tables whose probe returned a full page, in table order. */
  function ExposedTables(baseUrl: string, apiKey: string, tables: seq<string>, probe: Query -> ProbeOutcome): (r: seq<string>)
    ensures |r| <= |tables|
    ensures forall t :: t in r <==> t in tables && Exposed(probe(ProbeQuery(baseUrl, apiKey, t)))
    decreases |tables|
  {
    if tables == [] then []
    else
      var n := |tables| - 1;
      var front := ExposedTables(baseUrl, apiKey, tables[..n], probe);
      assert tables == tables[..n] + [tables[n]];
      front + (if Exposed(probe(ProbeQuery(baseUrl, apiKey, tables[n]))) then [tables[n]] else [])
  }

  /** The entries a successful scan reports for the exposed tables. */
  function Reported(tables: seq<string>): (r: seq<RlsCheckResult>)
    ensures |r| == |tables|
    ensures forall i :: 0 <= i < |tables| ==> r[i] == RlsCheckResult(tables[i], true, None)
  {
    seq(|tables|, i requires 0 <= i < |tables| => RlsCheckResult(tables[i], true, None))
  }

  lemma ReportedAppend(a: seq<string>, b: seq<string>)
    ensures Reported(a + b) == Reported(a) + Reported(b)
  {
  }

  /** The filter keeps the entry of the last table exactly when it is
      exposed. */
  lemma DisabledTablesOfLast(baseUrl: string, apiKey: string, tables: seq<string>, probe: Query -> ProbeOutcome)
    requires tables != []
    ensures var n := |tables| - 1;
      DisabledTables(OptionToSeq(EntryAt(baseUrl, apiKey, tables, probe, n)))
      == Reported(if Exposed(probe(ProbeQuery(baseUrl, apiKey, tables[n]))) then [tables[n]] else [])
  {
    var n := |tables| - 1;
    var o := probe(ProbeQuery(baseUrl, apiKey, tables[n]));
    var entry := OptionToSeq(EntryAt(baseUrl, apiKey, tables, probe, n));
    if entry != [] {
      assert entry[1..] == [];
    }
  }

  /** Filtering the scan to `rlsDisabled` keeps exactly the exposed
      tables, in order, and drops every probe that threw. */
  lemma {:induction false} DisabledTablesOfScan(baseUrl: string, apiKey: string, tables: seq<string>, probe: Query -> ProbeOutcome)
    ensures DisabledTables(Scan(baseUrl, apiKey, tables, probe)) == Reported(ExposedTables(baseUrl, apiKey, tables, probe))
    decreases |tables|
  {
    if tables != [] {
      var n := |tables| - 1;
      var front := tables[..n];
      var entry := OptionToSeq(EntryAt(baseUrl, apiKey, tables, probe, n));
      var last := if Exposed(probe(ProbeQuery(baseUrl, apiKey, tables[n]))) then [tables[n]] else [];
      assert Scan(baseUrl, apiKey, tables, probe) == Scan(baseUrl, apiKey, front, probe) + entry;
      assert ExposedTables(baseUrl, apiKey, tables, probe) == ExposedTables(baseUrl, apiKey, front, probe) + last;
      DisabledTablesOfScan(baseUrl, apiKey, front, probe);
      DisabledTablesAppend(Scan(baseUrl, apiKey, front, probe), entry);
      DisabledTablesOfLast(baseUrl, apiKey, tables, probe);
      ReportedAppend(ExposedTables(baseUrl, apiKey, front, probe), last);
    }
  }

  function NetworkEffects(queries: seq<Query>): (es: seq<Effect>)
    ensures |es| == |queries|
    ensures forall i :: 0 <= i < |queries| ==> es[i] == Network(queries[i])
  {
    seq(|queries|, i requires 0 <= i < |queries| => Network(queries[i]))
  }

  /** The result message goes out only when the sender has a tab. */
  function SendEffects(target: Option<int>, message: RlsCheckResultMessage): seq<Effect> {
    if target.Some? then [SendToTab(target.value, message)] else []
  }

  /** What the `execute` handler does: the probes of `checkRls`, then
      the result or the error for the tab. */
  function ExecuteEffects(supabaseKey: string, tables: seq<string>, target: Option<int>,
                          decode: string -> Option<Payload>, probe: Query -> ProbeOutcome, nowMs: int): seq<Effect>
  {
    match Plan(supabaseKey, decode, nowMs)
    case Failure(e) => SendEffects(target, Failed(e))
    case Success(baseUrl) =>
      NetworkEffects(Probes(baseUrl, supabaseKey, tables))
      + SendEffects(target, Succeeded(DisabledTables(Scan(baseUrl, supabaseKey, tables, probe))))
  }

  /** A rejected key (invalid or expired) sends one error message and
      issues no query; an accepted one queries every table once, in order,
      and reports exactly the exposed tables. */
  lemma ExecuteOutcome(supabaseKey: string, tables: seq<string>, target: Option<int>,
                       decode: string -> Option<Payload>, probe: Query -> ProbeOutcome, nowMs: int)
    ensures var es, plan := ExecuteEffects(supabaseKey, tables, target, decode, probe, nowMs), Plan(supabaseKey, decode, nowMs);
      plan.Failure? ==>
        && (forall i :: 0 <= i < |es| ==> !es[i].Network?)
        && (target.Some? ==> es == [SendToTab(target.value, Failed(plan.error))])
        && (target.None? ==> es == [])
    ensures var es, plan := ExecuteEffects(supabaseKey, tables, target, decode, probe, nowMs), Plan(supabaseKey, decode, nowMs);
      plan.Success? ==>
        && |es| >= |tables|
        && (forall i :: 0 <= i < |tables| ==> es[i] == Network(Query(plan.value, supabaseKey, tables[i], RowLimit)))
        && (target.Some? ==>
              es[|tables|..] == [SendToTab(target.value, Succeeded(Reported(ExposedTables(plan.value, supabaseKey, tables, probe))))])
        && (target.None? ==> |es| == |tables|)
  {
    var plan := Plan(supabaseKey, decode, nowMs);
    if plan.Success? {
      DisabledTablesOfScan(plan.value, supabaseKey, tables, probe);
    }
  }

  class Coordinator {
    var supabaseUrl: Option<string>
    var supabaseKey: Option<string>
    var rlsPrompted: Option<bool>
    var effects: seq<Effect>

    /** A fresh session: the store is empty and nothing has happened. */
    constructor ()
      ensures supabaseUrl == None && supabaseKey == None && rlsPrompted == None && effects == []
    {
      supabaseUrl, supabaseKey, rlsPrompted, effects := None, None, None, [];
    }

    /** The state change of one detected key: nothing when the key is
        falsy or unusable; otherwise the URL and the unmodified key are
        stored and the prompt may be injected. The flag is never written. */
    twostate predicate KeyHandled(apiKey: Option<string>, target: Option<int>, decode: string -> Option<Payload>)
      reads this
    {
      && rlsPrompted == old(rlsPrompted)
      && var cred := if Truthy(apiKey) then CredentialFor(apiKey.value, decode) else None;
         if cred.None? then
           supabaseUrl == old(supabaseUrl) && supabaseKey == old(supabaseKey) && effects == old(effects)
         else
           && supabaseUrl == Some(cred.value.url) && supabaseKey == Some(cred.value.key)
           && effects == old(effects) + PromptEffects(old(rlsPrompted), target)
    }

    /** The part both listeners share once they hold a truthy key. */
    method StoreDetectedKey(apiKey: string, target: Option<int>, decode: string -> Option<Payload>)
      requires apiKey != ""
      modifies this
      ensures KeyHandled(Some(apiKey), target, decode)
    {
      var decoded := decode(apiKey);
      if decoded.None? {
        return;
      }
      var projectRef := DeriveRef(decoded.value);
      if projectRef.None? {
        return;
      }
      supabaseUrl := Some("https://" + projectRef.value + ".supabase.co");
      supabaseKey := Some(apiKey);
      if !Prompted(rlsPrompted) && target.Some? {
        effects := effects + [InjectUi(target.value)];
      }
    }

    /** The `onBeforeSendHeaders` listener. */
    method OnBeforeSendHeaders(url: string, requestHeaders: Option<seq<HttpHeader>>, tabId: int,
                               decode: string -> Option<Payload>)
      modifies this
      ensures !IsSupabaseRestUrl(url) ==> unchanged(this)
      ensures IsSupabaseRestUrl(url) ==> KeyHandled(HeaderApiKey(requestHeaders), TabTarget(Some(tabId)), decode)
    {
      if !IsSupabaseRestUrl(url) {
        return;
      }
      var apiKey := HeaderApiKey(requestHeaders);
      if !Truthy(apiKey) {
        return;
      }
      StoreDetectedKey(apiKey.value, TabTarget(Some(tabId)), decode);
    }

    /** The `onMessage` listener; `keepOpen` is its `return true`, which
        keeps the response channel open. `senderTabId` is
        `sender.tab?.id`. */
    method OnMessage(msg: Message, senderTabId: Option<int>, decode: string -> Option<Payload>,
                     probe: Query -> ProbeOutcome, nowMs: int)
      returns (keepOpen: bool)
      modifies this
      ensures keepOpen <==> !(msg.SupabaseRequestDetected? || msg.OtherAction?)
      ensures msg.GetSupabaseData? ==>
        && supabaseUrl == old(supabaseUrl) && supabaseKey == old(supabaseKey) && rlsPrompted == old(rlsPrompted)
        && effects == old(effects) + [Respond(StoredData(old(supabaseUrl), old(supabaseKey)))]
      ensures msg.SetRlsPrompted? ==>
        && rlsPrompted == Some(msg.value)
        && supabaseUrl == old(supabaseUrl) && supabaseKey == old(supabaseKey)
        && effects == old(effects) + [Respond(Acknowledged)]
      ensures msg.SupabaseRequestDetected? ==> KeyHandled(msg.apiKey, TabTarget(senderTabId), decode)
      ensures msg.Execute? ==>
        && supabaseUrl == old(supabaseUrl) && supabaseKey == old(supabaseKey) && rlsPrompted == old(rlsPrompted)
        && effects == old(effects) + ExecuteEffects(msg.supabaseKey, msg.tables, TabTarget(senderTabId), decode, probe, nowMs)
      ensures msg.OtherAction? ==> unchanged(this)
    {
      match msg {
        case GetSupabaseData =>
          effects := effects + [Respond(StoredData(supabaseUrl, supabaseKey))];
          keepOpen := true;
        case SetRlsPrompted(value) =>
          rlsPrompted := Some(value);
          effects := effects + [Respond(Acknowledged)];
          keepOpen := true;
        case SupabaseRequestDetected(_, apiKey) =>
          if Truthy(apiKey) {
            StoreDetectedKey(apiKey.value, TabTarget(senderTabId), decode);
          }
          keepOpen := false;
        case Execute(_, supabaseKey, tables) =>
          var outcome, issued := CheckRls(supabaseKey, tables, decode, probe, nowMs);
          effects := effects + NetworkEffects(issued);
          var target := TabTarget(senderTabId);
          match outcome {
            case Success(results) =>
              var disabledTables := DisabledTables(results);
              if target.Some? {
                effects := effects + [SendToTab(target.value, Succeeded(disabledTables))];
              }
            case Failure(e) =>
              if target.Some? {
                effects := effects + [SendToTab(target.value, Failed(e))];
              }
          }
          keepOpen := true;
        case OtherAction(_) =>
          keepOpen := false;
      }
    }
  }

  /** Nothing but dismissing the prompt sets `rlsPrompted`, so a fresh
      session that detects a usable key twice injects the UI twice. */
  method RepeatedDetectionReinjects(apiKey: string, tabId: int, decode: string -> Option<Payload>)
    returns (effects: seq<Effect>)
    requires apiKey != "" && tabId != 0 && CredentialFor(apiKey, decode).Some?
    ensures effects == [InjectUi(tabId), InjectUi(tabId)]
  {
    var c := new Coordinator();
    c.StoreDetectedKey(apiKey, TabTarget(Some(tabId)), decode);
    c.StoreDetectedKey(apiKey, TabTarget(Some(tabId)), decode);
    effects := c.effects;
  }
}
