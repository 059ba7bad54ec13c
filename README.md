# Supabase RLS checker extension — a Dafny model

The extension watches a page's traffic for Supabase REST calls. It captures the project's API key (a JWT), works out the project reference from the key's claims, and keeps the project URL and the key in Chrome's session store. It injects its prompt UI into the tab at every detected key until the user dismisses the prompt, which sets the session flag `rlsPrompted`. On request it probes each table with a 30-row query. A probe that comes back full shows that row-level security (RLS) leaves the table readable.

The project models the four pieces that make these decisions:

- `utils.dfy`, module `Utils`: the credential resolver (`decodeJwtAndGetProjectRef`, `cleanApiKey`, `isTokenExpired`).
- `rls_checker.dfy`, module `RlsChecker`: `checkRls`. It is an imperative method with a loop, proved against the functions `Plan`, `Scan` and `Probes`.
- `background.dfy`, module `Background`: the background service worker. It is a class `Coordinator` with the three session-store keys as fields. Its methods are the `onBeforeSendHeaders` listener and the `onMessage` handlers.
- `detector.dfy`, module `Detector`: the content-script wrappers around `window.fetch` and `XMLHttpRequest`. There is a class `Page` for what leaves the page and a class `Xhr` for one request object.
- `strings.dfy`, module `Strings`, and `wrappers.dfy`, module `Wrappers`: the JavaScript string operations used and the `Option`/`Result` types.

What the model treats as parameters:

- The JWT library is a parameter `decode: string -> Option<Payload>`. `None` is a thrown decode error.
- The Supabase client is a parameter `probe: Query -> ProbeOutcome`. A query yields `Rows(n)`, `NoData` (null `data`, with or without an `error` object), or `Throws(message)`.
- The clock is a parameter `nowMs` in milliseconds.

Chrome calls the extension makes are appended, in order, to a log:

| Chrome call | Log entry |
|---|---|
| `executeScript` | `InjectUi` |
| each Supabase query | `Network` |
| `tabs.sendMessage` | `SendToTab` |
| `sendResponse` | `Respond` |

On the page side, the model logs the runtime messages sent and the calls passed on to the original `fetch`, `open` and `setRequestHeader`.

JavaScript semantics are written out:

- A string is truthy when it is present and non-empty. An `a || b || c` chain is `FirstTruthy`.
- `split` on one character turns `""` into `[""]`.
- `toLowerCase` folds ASCII letters only.
- The template `https://${payload.ref}.supabase.co` prints `undefined` when `ref` is absent.
- `undefined < n` is false, so a token without `exp` is not expired by `isTokenExpired`.

## Behaviour worth knowing

- **The issuer claim.** The `iss` candidate is element 3 of `iss.split('/')`. For the issuer of a Supabase user token, `https://<ref>.<host>/auth/v1`, that element is `"auth"`, not the project reference (`Utils.IssuerExample`).
- **The probe URL.** `checkRls` builds its client URL from the `ref` claim itself, not from the derived reference. A key that carries only `sub` or `iss` passes the resolution step and is then probed at `https://undefined.supabase.co` (`RlsChecker.ProbeUrlIgnoresDerivedRef`).
- **Protected tables are not reported.** A table whose probe returns fewer than 30 rows, or no data, gets no entry at all. There is no "protected" entry.
- **Probes run one after another.** The loop awaits each query before the next.
- **A missing `exp` does not count the same everywhere.**
  - `isTokenExpired` treats it as not expired.
  - `checkRls` formats `exp` as a date in a log line inside its `try`. With `exp` missing, or out of the range `Date` accepts, that line throws. The throw is caught and reported as an invalid key (`RlsChecker.ExpLoggable`).
- **Keys from the two detection paths reach the store differently.**
  - The `onBeforeSendHeaders` listener stores the `apikey` header exactly as sent. It does not strip `Bearer ` and does not fall back to `Authorization`.
  - The page wrappers strip one `Bearer `.
  - The XHR wrapper reports even an empty value. The background then drops it as falsy.

## Model

| member | source | states |
|---|---|---|
| Strings.IncludesIffOccurs | src/background.ts:17 | `includes` holds exactly when the pattern occurs at some index |
| Strings.Lower | src/background.ts:22 | lower-casing keeps the length, leaves no capital, turns each ASCII capital into its lower-case letter and keeps every other character |
| Strings.LowerIdempotent | src/background.ts:22 | folding case twice is folding it once |
| Strings.LowerMatches | src/content/detector.ts:60 | for a name without capitals, `s.toLowerCase()` equals it exactly when `s` spells it in any capitalisation |
| Strings.Split | src/common/utils.ts:20-21 | `split` yields at least one piece and no piece holds the separator |
| Strings.JoinSplit | src/common/utils.ts:20-21 | joining the pieces of a split with the separator gives back the string |
| Strings.SplitJoin | src/common/utils.ts:20-21 | splitting a join of separator-free pieces gives back the pieces |
| Strings.SplitWithoutSeparator | src/common/utils.ts:20 | a string without the separator is a single piece |
| Strings.SplitAtFirst | src/common/utils.ts:20-21 | the first separator cuts off the first piece exactly |
| Strings.SplitHead | src/common/utils.ts:20 | the first piece is the longest separator-free prefix, either all of the string or followed by the separator |
| Strings.SplitHeadWhole | src/common/utils.ts:20 | the first piece is the whole string iff it holds no separator |
| Utils.IsSupabaseRestUrl | src/background.ts:17 | a URL is a Supabase REST URL iff it contains `.supabase.co/rest/v1/` (an occurrence index, by `Strings.IncludesIffOccurs`) |
| Utils.FirstTruthy | src/common/utils.ts:19-21 | an `\|\|` chain is truthy iff some candidate is; its value is the first truthy candidate and is non-empty |
| Utils.SubjectCandidate | src/common/utils.ts:20 | the second candidate: the first `:`-piece of a truthy `sub`, none otherwise |
| Utils.IssuerCandidate | src/common/utils.ts:21 | the third candidate: element 3 of a truthy `iss` split on `/`, none when there are fewer pieces |
| Utils.DeriveRef | src/common/utils.ts:19-23 | the reference is non-empty; there is none exactly when all three candidates are falsy |
| Utils.DeriveRefPrefersRefClaim | src/common/utils.ts:19 | a non-empty `ref` is the reference whatever `sub` and `iss` hold |
| Utils.DeriveRefFromSubject | src/common/utils.ts:20 | without `ref`, a non-empty `sub` gives its text before the first `:` (all of it without a `:`), an empty first piece falling through |
| Utils.DeriveRefFromSubjectPieces | src/common/utils.ts:20 | `a:b` with `a` non-empty and colon-free gives `a` |
| Utils.SubjectExample | src/common/utils.ts:20 | `"abcd1234:authenticated"` gives `"abcd1234"` |
| Utils.DeriveRefFromIssuer | src/common/utils.ts:21 | otherwise the reference is element 3 of `iss` split on `/`, when it exists and is non-empty, and there is none otherwise |
| Utils.DeriveRefFromIssuerPieces | src/common/utils.ts:21 | an issuer `u0/u1/u2/u3/rest` splits into `u0..u3` and the pieces of `rest` and gives `u3` |
| Utils.IssuerExample | src/common/utils.ts:21 | an issuer `https://<host>/auth/v1`, such as `"https://abcd1234.example.com/auth/v1"`, gives `"auth"` whatever the host |
| Utils.DecodeJwtAndGetProjectRef | src/common/utils.ts:16-31 | succeeds iff decoding succeeds and a reference is derived; the payload is returned unchanged, the reference is non-empty, and every failure is the one error `Invalid Supabase API Key` |
| Utils.CleanApiKey | src/common/utils.ts:38-40 | with a leading case-sensitive `Bearer `, prefixing the result gives back the key; otherwise the key is unchanged |
| Utils.CleanApiKeyRemovesPrefix | src/common/utils.ts:39 | stripping undoes prefixing `Bearer ` |
| Utils.CleanApiKeyNotIdempotent | src/common/utils.ts:39 | only one prefix goes: `Bearer Bearer x` gives `Bearer x`, and a second strip gives `x` |
| Utils.IsTokenExpired | src/common/utils.ts:47-49 | expired iff `exp` is present and `exp*1000 < nowMs` |
| Utils.ExpiryBoundary | src/common/utils.ts:48 | not expired at the very millisecond `exp` starts, expired one millisecond later, and expiry is monotone in time |
| RlsChecker.Classify | src/common/rlsChecker.ts:73-86 | an `rlsDisabled` entry iff the probe returned at least 30 rows; an error entry with `例外発生: ` plus the message iff it threw; no entry for fewer rows or null data |
| RlsChecker.PageBoundary | src/common/rlsChecker.ts:73 | 29 rows give no entry, 30 rows give an exposed one |
| RlsChecker.RefText | src/common/rlsChecker.ts:60-61 | `${payload.ref}` in the template: the claim, or `undefined` when it is absent |
| RlsChecker.ProbeBaseUrl | src/common/rlsChecker.ts:61 | the client URL `https://<ref claim>.supabase.co` |
| RlsChecker.ExpLoggable | src/common/rlsChecker.ts:45-48 | the success log line can format `exp` only when it is present and `exp*1000` is within the range of `Date` |
| RlsChecker.MissingExpRejected | src/common/rlsChecker.ts:45-51 | a payload without `exp` is not expired by `isTokenExpired` yet is refused as an invalid key |
| RlsChecker.OutOfRangeExpRejected | src/common/rlsChecker.ts:45-51 | an `exp` below the range of `Date` makes the key invalid, even though such a token is expired |
| RlsChecker.Plan | src/common/rlsChecker.ts:28-61 | invalid-key error iff decoding fails, no reference is derived or `exp` cannot be formatted; otherwise the expiry error iff expired; otherwise the client URL from `ref` |
| RlsChecker.InvalidKeyBeforeExpiry | src/common/rlsChecker.ts:49-57 | an invalid key is reported as invalid whatever the clock says |
| RlsChecker.PlanAgreesWithResolver | src/common/rlsChecker.ts:35-52 | a key the resolver rejects is rejected as invalid here; a key accepted here is accepted by the resolver |
| RlsChecker.ProbeUrlIgnoresDerivedRef | src/common/rlsChecker.ts:60-61 | without a `ref` claim the client URL is `https://undefined.supabase.co`, which differs from the derived reference's URL |
| RlsChecker.Probes | src/common/rlsChecker.ts:64-71 | one query per table, in order, each with limit 30 |
| RlsChecker.Scan | src/common/rlsChecker.ts:62-88 | no more entries than tables |
| RlsChecker.ScanIsOrderedSelection | src/common/rlsChecker.ts:62-91 | the results are the entries of exactly the positions that produce one, in strictly increasing table order |
| RlsChecker.ScanAppend | src/common/rlsChecker.ts:64-88 | the loop over `a + b` gives the results of `a` followed by those of `b` |
| RlsChecker.ThrownProbeIsRecorded | src/common/rlsChecker.ts:80-87 | a thrown probe leaves its error entry in place and the tables after it are still probed |
| RlsChecker.ExposedEntryIff | src/common/rlsChecker.ts:73-79 | a table has an `rlsDisabled` entry iff it is in the list and its probe returned a full page |
| RlsChecker.TwoTableScenario | src/common/rlsChecker.ts:64-79 | a 30-row table and a 2-row table give exactly one entry, for the first |
| RlsChecker.CheckRls | src/common/rlsChecker.ts:19-92 | with a rejected key, the decode or expiry error and no query; otherwise every table queried once in order and the results of the scan |
| Background.FindApiKeyHeader | src/background.ts:21-23 | the index found is the first header whose lower-cased name is `apikey`; none iff no such header |
| Background.ApiKeyHeaderAnyCase | src/background.ts:22 | a header name matches `apikey` in any capitalisation and only then |
| Background.HeaderApiKey | src/background.ts:21-23 | a found key is the value of a header named `apikey` in any case |
| Background.FirstApiKeyHeaderWins | src/background.ts:21-23 | the first `apikey` header decides, whatever follows it |
| Background.SupabaseUrl | src/background.ts:56 | the stored URL `https://<derived reference>.supabase.co` |
| Background.SupabaseUrlInjective | src/background.ts:56 | the stored URL determines the project reference |
| Background.CredentialFor | src/background.ts:35-56 | a detected key is usable iff `decodeJwtAndGetProjectRef` accepts it; it is stored unmodified with the URL of that reference |
| Background.TabTarget | src/background.ts:62 | a missing or zero tab id is no target; any other id is the target |
| Background.PromptEffects | src/background.ts:60-72 | one `InjectUi` iff `rlsPrompted` is not `true` and there is a tab id |
| Background.DisabledTables | src/background.ts:192 | the filter keeps exactly the `rlsDisabled` entries |
| Background.DisabledTablesAppend | src/background.ts:192 | the filter distributes over concatenation |
| Background.ExposedTables | src/common/rlsChecker.ts:73-79 | a table is listed iff it is in the list and its probe returned a full page |
| Background.DisabledTablesOfLast | src/background.ts:192 | the filter keeps the last table's entry iff it is exposed |
| Background.DisabledTablesOfScan | src/background.ts:188-192 | filtering the scan gives exactly the exposed tables, in order; thrown probes are dropped |
| Background.ExecuteEffects | src/background.ts:188-230 | the effects of `execute`: the probes of `checkRls`, then the result or the error for the sender's tab |
| Background.ExecuteOutcome | src/background.ts:181-230 | a rejected key issues no query and sends only the error; an accepted key queries each table once in order, then sends exactly the exposed tables; without a sender tab nothing is sent |
| Background.Coordinator.StoreDetectedKey | src/background.ts:32-76 | an unusable key changes nothing; a usable key stores its URL and the raw key, and injects the UI iff `rlsPrompted` is not `true` and there is a tab |
| Background.RepeatedDetectionReinjects | src/background.ts:60-66 | in a fresh session, two detections of a usable key at a tab inject the UI twice, since only dismissing the prompt sets `rlsPrompted` |
| Background.Coordinator.OnBeforeSendHeaders | src/background.ts:14-86 | a non-REST URL changes nothing; otherwise the first `apikey` header's value is handled as a detected key |
| Background.Coordinator.OnMessage | src/background.ts:89-234 | `getSupabaseData` answers the stored pair; `setRlsPrompted` writes only the flag; `supabaseRequestDetected` handles the key; `execute` runs the check on `supabaseKey` and `tables` and reports; the channel stays open iff the handler returns `true` |
| Detector.FetchUrl | src/content/detector.ts:7 | the URL of a `Request`, else the text of the string or `URL` argument |
| Detector.FetchHeaders | src/content/detector.ts:10 | `init.headers` when given, else the `Request`'s headers, else an empty `Headers` |
| Detector.KeyCandidates | src/content/detector.ts:13-20 | the lookups in order: `apikey`, `Authorization` for a `Headers` object; `apikey`, `Apikey`, `APIKey`, `Authorization` for a record; none for an array |
| Detector.FetchApiKey | src/content/detector.ts:11-20 | the key is the first truthy lookup and is non-empty; none iff every lookup is falsy; an array of pairs gives none |
| Detector.PlainObjectSpellingOrder | src/content/detector.ts:16-18 | an empty `apikey` falls through to `Apikey`, which wins over the later spellings |
| Detector.HeadersObjectPrefersApiKey | src/content/detector.ts:14 | in a `Headers` object a non-empty `apikey` wins over `Authorization` |
| Detector.PlainObjectFallsBackToAuthorization | src/content/detector.ts:16-19 | without the three `apikey` spellings a record's `Authorization` is taken |
| Detector.PlainObjectIsCaseSensitive | src/content/detector.ts:16-19 | a record key spelt `APIKEY` is not found |
| Detector.FetchReport | src/content/detector.ts:7-33 | a report iff the URL is a REST URL and a key was found; it carries the URL and the key, with its leading `Bearer ` removed when it has one and unchanged otherwise |
| Detector.FetchReportStripsBearer | src/content/detector.ts:22-31 | a bearer token in `Authorization` is reported without the prefix |
| Detector.IsKeyHeaderName | src/content/detector.ts:60 | the header name lower-cases to `apikey` or `authorization` |
| Detector.KeyHeaderNameAnyCase | src/content/detector.ts:60 | the XHR wrapper reacts to `apikey` and `authorization` spelt in any capitalisation, and only to them |
| Detector.XhrReport | src/content/detector.ts:60-72 | a report iff the name is `apikey` or `authorization` in any case and the recorded URL is a REST URL; it carries that URL and the value, with its leading `Bearer ` removed when it has one and unchanged otherwise |
| Detector.XhrReportsEmptyValue | src/content/detector.ts:60-65 | an empty header value is reported too |
| Detector.FetchAndXhrAgree | src/content/detector.ts:7-72 | a request carrying only a non-empty `apikey` gives the same report on both paths |
| Detector.Page.Fetch | src/content/detector.ts:6-37 | appends the fetch report, if any, then passes the caller's arguments to the original `fetch` |
| Detector.Xhr.Open | src/content/detector.ts:41-55 | records the URL on the instance and passes the arguments on, a missing `async` as `true` |
| Detector.Xhr.SetRequestHeader | src/content/detector.ts:58-77 | appends the XHR report for the recorded URL, if any, and passes the header on; the recorded URL is kept |
| Detector.OpenThenSetHeader | src/content/detector.ts:48-72 | opening on a REST URL, then setting a key header to `Bearer <t>`, reports `<t>` for that URL |

## Left out

- JWT decoding (base64url and JSON parsing) is the parameter `decode`. No signature is checked anywhere in the extension.
- Claim types: claim values are strings, and `exp` is an integer. A non-string `sub` or `iss`, whose `split` would throw, is not modelled. Neither is a fractional or non-numeric `exp`.
- The Supabase client and networking are the parameter `probe`, a fixed function. A backend that changes during a scan is not modelled. A thrown value is taken to carry a message string.
- The `limit(30)` query is modelled as a free row count. The server's cap of 30 rows is not assumed.
- Chrome's storage, scripting, tabs and runtime APIs are state and an effect log. Each handler runs to completion in one step, not as a chain of promises. Interleavings of concurrent handlers are not modelled.
- Storage and messaging failures are treated as never happening. The `.catch` branches only log, or answer `{ error }` in `getSupabaseData` and `setRlsPrompted`.
- `Date.now()` is the parameter `nowMs`.
- `msg.value` of `setRlsPrompted` is modelled as a boolean. `msg.supabaseUrl` of `execute` is only logged, so it is unused.
- `Headers` objects are modelled as maps keyed by lower-cased name. The comma-joining of repeated header names is not modelled.
- `toLowerCase` folds ASCII letters only.
- The page's own return values are not modelled. These are the response promise of `fetch` and the results of `open` and `setRequestHeader`. The calls themselves and their arguments are logged.
- The empty `rlsCheckResult` listener of the content script (src/content/detector.ts:80-84) is not modelled. The unused `[data-supabase]` query (src/content/detector.ts:2) is not modelled either.
- All `console.*` logging, `logError` and `buttonStyles` are not modelled. The one log line that can throw is modelled in `Plan`.
- src/content/ui.tsx, src/common/constants.ts, src/common/types.ts and webpack.config.js are not part of this model (UI, data declarations and build configuration).
