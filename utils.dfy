/** The credential resolver: from a decoded JWT payload to the Supabase
    project reference, the `Bearer ` strip and the expiry test. The JWT
    decoder is a parameter `decode` that either yields the payload or
    fails (the library throws). */
module Utils {
  import opened Wrappers
  import opened Strings

  /** The claims the extension reads: `ref` (a Supabase-specific claim),
      `sub` and `iss` (RFC 7519 sections 4.1.2 and 4.1.1) and `exp`
      (RFC 7519 section 4.1.4, seconds since the epoch). Any of them may be
      missing from the decoded JSON. */
  datatype Payload = Payload(
    ref: Option<string>,
    exp: Option<int>,
    sub: Option<string>,
    iss: Option<string>)

  /** What `decodeJwtAndGetProjectRef` returns on success. */
  datatype Resolved = Resolved(projectRef: string, payload: Payload)

  const InvalidApiKey: string := "Invalid Supabase API Key"
  const BearerPrefix: string := "Bearer "

  /** The URL path every Supabase REST call contains; both the background
      listener and the page detector test for it. */
  const RestPath: string := ".supabase.co/rest/v1/"

  predicate IsSupabaseRestUrl(url: string) {
    Includes(url, RestPath)
  }

  /** JavaScript truthiness of an optional string: present and non-empty. */
  predicate Truthy(v: Option<string>) {
    v.Some? && v.value != ""
  }

  /** The value of `c0 || c1 || ...` when it is truthy, and `None` when
      every candidate is falsy (then the chain's value is falsy too). */
  function FirstTruthy(candidates: seq<Option<string>>): (r: Option<string>)
    ensures r.Some? <==> exists i :: 0 <= i < |candidates| && Truthy(candidates[i])
    ensures r.Some? ==> r.value != ""
    ensures r.Some? ==> exists i :: 0 <= i < |candidates| && candidates[i] == r &&
                                    forall j :: 0 <= j < i ==> !Truthy(candidates[j])
    decreases |candidates|
  {
    if candidates == [] then None
    else if Truthy(candidates[0]) then candidates[0]
    else
      var r := FirstTruthy(candidates[1..]);
      assert forall i :: 1 <= i < |candidates| ==> candidates[i] == candidates[1..][i - 1];
      r
  }

  /** `payload.sub ? payload.sub.split(':')?.[0] : undefined` */
  function SubjectCandidate(p: Payload): Option<string> {
    if Truthy(p.sub) then Some(Split(p.sub.value, ':')[0]) else None
  }

  /** `payload.iss ? payload.iss.split('/')?.[3] : undefined` */
  function IssuerCandidate(p: Payload): Option<string> {
    if Truthy(p.iss) then
      var parts := Split(p.iss.value, '/');
      if |parts| > 3 then Some(parts[3]) else None
    else None
  }

  /** The project reference: the first truthy of `ref`, the first
      `:`-piece of `sub`, and the fourth `/`-piece of `iss`. The same
      expression is written out in `decodeJwtAndGetProjectRef`, in both
      background listeners and in `checkRls`. */
  function DeriveRef(p: Payload): (r: Option<string>)
    ensures r.Some? ==> r.value != ""
    ensures r.None? <==> !Truthy(p.ref) && !Truthy(SubjectCandidate(p)) && !Truthy(IssuerCandidate(p))
  {
    var candidates := [p.ref, SubjectCandidate(p), IssuerCandidate(p)];
    assert candidates[0] == p.ref && candidates[1] == SubjectCandidate(p) && candidates[2] == IssuerCandidate(p);
    FirstTruthy(candidates)
  }

  /** A non-empty `ref` claim wins whatever `sub` and `iss` hold. */
  lemma DeriveRefPrefersRefClaim(p: Payload)
    requires Truthy(p.ref)
    ensures DeriveRef(p) == p.ref
  {
    var candidates := [p.ref, SubjectCandidate(p), IssuerCandidate(p)];
    assert candidates[0] == p.ref;
  }

  /** Without `ref`, a non-empty `sub` gives its text before the first
      `:` (all of it when it has no `:`), unless that text is empty. */
  lemma DeriveRefFromSubject(p: Payload)
    requires !Truthy(p.ref) && Truthy(p.sub)
    ensures var h := Split(p.sub.value, ':')[0];
      && ':' !in h && StartsWith(p.sub.value, h)
      && (|h| == |p.sub.value| || p.sub.value[|h|] == ':')
      && (h != "" ==> DeriveRef(p) == Some(h))
      && (':' !in p.sub.value ==> DeriveRef(p) == p.sub)
  {
    var candidates := [p.ref, SubjectCandidate(p), IssuerCandidate(p)];
    assert candidates[0] == p.ref && candidates[1] == SubjectCandidate(p);
    SplitHead(p.sub.value, ':');
    SplitHeadWhole(p.sub.value, ':');
  }

  /** Otherwise the fourth `/`-piece of `iss`, when there is one and it is
      non-empty. */
  lemma DeriveRefFromIssuer(p: Payload)
    requires !Truthy(p.ref) && !Truthy(SubjectCandidate(p)) && Truthy(p.iss)
    ensures var parts := Split(p.iss.value, '/');
      DeriveRef(p) == if |parts| > 3 && parts[3] != "" then Some(parts[3]) else None
  {
    var candidates := [p.ref, SubjectCandidate(p), IssuerCandidate(p)];
    assert candidates[2] == IssuerCandidate(p);
  }

  /** A subject `a:b` with `a` non-empty and colon-free gives `a`. */
  lemma DeriveRefFromSubjectPieces(p: Payload, a: string, b: string)
    requires !Truthy(p.ref) && p.sub == Some(a + [':'] + b)
    requires a != "" && ':' !in a
    ensures DeriveRef(p) == Some(a)
  {
    SplitAtFirst(a, ':', b);
    assert SubjectCandidate(p) == Some(a);
    DeriveRefFromSubject(p);
  }

  /** `"abcd1234:authenticated"` as `sub` gives `"abcd1234"`. */
  lemma SubjectExample(p: Payload)
    requires p.ref == None && p.sub == Some("abcd1234:authenticated")
    ensures DeriveRef(p) == Some("abcd1234")
  {
    assert "abcd1234:authenticated" == "abcd1234" + [':'] + "authenticated";
    DeriveRefFromSubjectPieces(p, "abcd1234", "authenticated");
  }

  /** An issuer `u0/u1/u2/u3/rest` (pieces slash-free, `u3` non-empty) gives
      `u3` when `ref` and `sub` give nothing. */
  lemma DeriveRefFromIssuerPieces(p: Payload, u0: string, u1: string, u2: string, u3: string, rest: string)
    requires !Truthy(p.ref) && !Truthy(SubjectCandidate(p))
    requires '/' !in u0 && '/' !in u1 && '/' !in u2 && '/' !in u3 && u3 != ""
    requires p.iss == Some(u0 + ['/'] + (u1 + ['/'] + (u2 + ['/'] + (u3 + ['/'] + rest))))
    ensures Split(p.iss.value, '/') == [u0, u1, u2, u3] + Split(rest, '/')
    ensures DeriveRef(p) == Some(u3)
  {
    SplitAtFirst(u3, '/', rest);
    SplitAtFirst(u2, '/', u3 + ['/'] + rest);
    SplitAtFirst(u1, '/', u2 + ['/'] + (u3 + ['/'] + rest));
    SplitAtFirst(u0, '/', u1 + ['/'] + (u2 + ['/'] + (u3 + ['/'] + rest)));
    DeriveRefFromIssuer(p);
  }

  /** The issuer of a Supabase user token, `https://<host>/auth/v1`: its
      fourth `/`-piece is `"auth"`, not the project reference in `<host>`
      (for instance `"https://abcd1234.supabase.co/auth/v1"` gives `"auth"`). */
  lemma IssuerExample(p: Payload, host: string)
    requires p.ref == None && p.sub == None && '/' !in host
    requires p.iss == Some("https://" + host + "/auth/v1")
    ensures DeriveRef(p) == Some("auth")
  {
    assert "https://" + host + "/auth/v1"
        == "https:" + ['/'] + ("" + ['/'] + (host + ['/'] + ("auth" + ['/'] + "v1")));
    DeriveRefFromIssuerPieces(p, "https:", "", host, "auth", "v1");
  }

  /** `decodeJwtAndGetProjectRef`: every failure, of the decoder or of the
      derivation, ends as the one error `'Invalid Supabase API Key'`. */
  function DecodeJwtAndGetProjectRef(apiKey: string, decode: string -> Option<Payload>): (r: Result<Resolved, string>)
    ensures r.Success? <==> decode(apiKey).Some? && DeriveRef(decode(apiKey).value).Some?
    ensures r.Success? ==> && Some(r.value.payload) == decode(apiKey)
                           && Some(r.value.projectRef) == DeriveRef(r.value.payload)
                           && r.value.projectRef != ""
    ensures r.Failure? ==> r.error == InvalidApiKey
  {
    match decode(apiKey)
    case None => Failure(InvalidApiKey)
    case Some(payload) =>
      match DeriveRef(payload)
      case None => Failure(InvalidApiKey)
      case Some(projectRef) => Success(Resolved(projectRef, payload))
  }

  /** `cleanApiKey`: drops one leading `'Bearer '` (case-sensitive). */
  function CleanApiKey(apiKey: string): (r: string)
    ensures StartsWith(apiKey, BearerPrefix) ==> BearerPrefix + r == apiKey
    ensures !StartsWith(apiKey, BearerPrefix) ==> r == apiKey
  {
    if StartsWith(apiKey, BearerPrefix) then apiKey[|BearerPrefix|..] else apiKey
  }

  /** Stripping undoes prefixing. */
  lemma CleanApiKeyRemovesPrefix(k: string)
    ensures CleanApiKey(BearerPrefix + k) == k
  {
    assert (BearerPrefix + k)[..|BearerPrefix|] == BearerPrefix;
  }

  /** Only one prefix goes: the strip is not idempotent. */
  lemma CleanApiKeyNotIdempotent()
    ensures CleanApiKey("Bearer Bearer x") == "Bearer x"
    ensures CleanApiKey(CleanApiKey("Bearer Bearer x")) == "x"
  {
    assert "Bearer Bearer x" == BearerPrefix + "Bearer x";
    CleanApiKeyRemovesPrefix("Bearer x");
    assert "Bearer x" == BearerPrefix + "x";
    CleanApiKeyRemovesPrefix("x");
  }

  /** `isTokenExpired`: `payload.exp < Date.now() / 1000` with the clock
      given in milliseconds. A missing `exp` compares as `undefined`, which
      is never less than a number. */
  function IsTokenExpired(p: Payload, nowMs: int): (expired: bool)
    ensures expired <==> p.exp.Some? && p.exp.value * 1000 < nowMs
  {
    p.exp.Some? && (p.exp.value as real) < (nowMs as real) / 1000.0
  }

  /** A token stays valid through the very millisecond its `exp` second
      starts, expires one millisecond later, and stays expired. */
  lemma ExpiryBoundary(p: Payload, nowMs: int, laterMs: int)
    requires p.exp.Some? && nowMs <= laterMs
    ensures !IsTokenExpired(p, p.exp.value * 1000)
    ensures IsTokenExpired(p, p.exp.value * 1000 + 1)
    ensures IsTokenExpired(p, nowMs) ==> IsTokenExpired(p, laterMs)
  {
  }
}
