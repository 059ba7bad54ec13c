/** `checkRls`: resolve the key, refuse an expired one, then probe each
    table in turn with a 30-row query and report the tables whose probe
    came back full (row-level security evidently off) and the tables whose
    probe threw. The Supabase client is a parameter `probe`, a function
    from the query sent to what came back. */
module RlsChecker {
  import opened Wrappers
  import opened Strings
  import opened Utils

  const InvalidKeyMessage: string := "無効な Supabase API Key"
  const ExpiredMessage: string := "API Key 有効期限切れ"
  const ExceptionPrefix: string := "例外発生: "

  /** Each probe asks for at most this many rows, and a probe that gets
      this many counts as exposed. */
  const RowLimit: nat := 30

  /** The largest magnitude of a time value in milliseconds that
      JavaScript's `Date` accepts (ECMAScript's TimeClip). */
  const MaxTimeValue: int := 8_640_000_000_000_000

  /** `supabase.from(table).select('*').limit(limit)` on a client made from
      `baseUrl` and `apiKey`. */
  datatype Query = Query(baseUrl: string, apiKey: string, table: string, limit: nat)

  /** What a query produced: `data` holding `count` rows, `data` null
      (with or without a returned `error`), or a thrown error. */
  datatype ProbeOutcome = Rows(count: nat) | NoData | Throws(message: string)

  /** One entry of `checkRls`'s result array. */
  datatype RlsCheckResult = RlsCheckResult(table: string, rlsDisabled: bool, errorMessage: Option<string>)

  /** A full page of rows came back. */
  predicate Exposed(o: ProbeOutcome) {
    o.Rows? && o.count >= RowLimit
  }

  /** The entry the loop pushes for one table, if any. */
  function Classify(table: string, o: ProbeOutcome): (r: Option<RlsCheckResult>)
    ensures r.Some? ==> r.value.table == table
    ensures (r.Some? && r.value.rlsDisabled) <==> Exposed(o)
    ensures (r.Some? && !r.value.rlsDisabled) <==> o.Throws?
    ensures r.None? <==> (o.Rows? && o.count < RowLimit) || o.NoData?
    ensures Exposed(o) ==> r.value.errorMessage == None
    ensures o.Throws? ==> r.value.errorMessage == Some(ExceptionPrefix + o.message)
  {
    match o
    case Rows(n) => if n >= RowLimit then Some(RlsCheckResult(table, true, None)) else None
    case NoData => None
    case Throws(m) => Some(RlsCheckResult(table, false, Some(ExceptionPrefix + m)))
  }

  /** 29 rows give no entry; 30 rows give an exposed one. */
  lemma PageBoundary(table: string)
    ensures Classify(table, Rows(RowLimit - 1)) == None
    ensures Classify(table, Rows(RowLimit)) == Some(RlsCheckResult(table, true, None))
  {
  }

  /** The template `https://${payload.ref}.supabase.co`: an absent `ref`
      prints as `undefined`. */
  function RefText(ref: Option<string>): string {
    ref.GetOr("undefined")
  }

  function ProbeBaseUrl(p: Payload): string {
    "https://" + RefText(p.ref) + ".supabase.co"
  }

  function ProbeQuery(baseUrl: string, apiKey: string, table: string): Query {
    Query(baseUrl, apiKey, table, RowLimit)
  }

  /** The success log line inside the `try` formats `exp` as a date; with
      `exp` missing or outside the range of `Date` that throws, and the
      `catch` turns it into the invalid-key error. */
  predicate ExpLoggable(p: Payload) {
    p.exp.Some? && -MaxTimeValue <= p.exp.value * 1000 <= MaxTimeValue
  }

  /** A payload without `exp` resolves, is never expired by
      `isTokenExpired`, and is still refused by `checkRls` as invalid. */
  lemma MissingExpRejected(supabaseKey: string, decode: string -> Option<Payload>, nowMs: int)
    requires decode(supabaseKey).Some? && decode(supabaseKey).value.exp.None?
    ensures !IsTokenExpired(decode(supabaseKey).value, nowMs)
    ensures Plan(supabaseKey, decode, nowMs) == Failure(InvalidKeyMessage)
  {
    assert !ExpLoggable(decode(supabaseKey).value);
  }

  /** An `exp` below the range of time values `Date` can hold makes the
      key invalid, although such a token is long expired. */
  lemma OutOfRangeExpRejected(supabaseKey: string, decode: string -> Option<Payload>, nowMs: int)
    requires decode(supabaseKey).Some? && decode(supabaseKey).value.exp.Some?
    requires decode(supabaseKey).value.exp.value * 1000 < -MaxTimeValue
    ensures nowMs >= -MaxTimeValue ==> IsTokenExpired(decode(supabaseKey).value, nowMs)
    ensures Plan(supabaseKey, decode, nowMs) == Failure(InvalidKeyMessage)
  {
    assert !ExpLoggable(decode(supabaseKey).value);
  }

  /** What `checkRls` settles before its loop: the error it throws, or
      the base URL of the client it creates. */
  function Plan(supabaseKey: string, decode: string -> Option<Payload>, nowMs: int): (r: Result<string, string>)
    ensures r == Failure(InvalidKeyMessage) <==>
      decode(supabaseKey).None? || DeriveRef(decode(supabaseKey).value).None? || !ExpLoggable(decode(supabaseKey).value)
    ensures r == Failure(ExpiredMessage) <==>
      && decode(supabaseKey).Some? && DeriveRef(decode(supabaseKey).value).Some?
      && ExpLoggable(decode(supabaseKey).value) && IsTokenExpired(decode(supabaseKey).value, nowMs)
    ensures r.Success? <==>
      && decode(supabaseKey).Some? && DeriveRef(decode(supabaseKey).value).Some?
      && ExpLoggable(decode(supabaseKey).value) && !IsTokenExpired(decode(supabaseKey).value, nowMs)
    ensures r.Success? ==> decode(supabaseKey).Some? && r.value == ProbeBaseUrl(decode(supabaseKey).value)
  {
    match decode(supabaseKey)
    case None => Failure(InvalidKeyMessage)
    case Some(payload) =>
      if DeriveRef(payload).None? || !ExpLoggable(payload) then Failure(InvalidKeyMessage)
      else if IsTokenExpired(payload, nowMs) then Failure(ExpiredMessage)
      else Success(ProbeBaseUrl(payload))
  }

  /** An unusable key is reported as invalid whatever the clock says: the
      expiry test comes after resolution. */
  lemma InvalidKeyBeforeExpiry(supabaseKey: string, decode: string -> Option<Payload>, nowMs: int, laterMs: int)
    requires Plan(supabaseKey, decode, nowMs) == Failure(InvalidKeyMessage)
    ensures Plan(supabaseKey, decode, laterMs) == Failure(InvalidKeyMessage)
  {
  }

  /** The key that `decodeJwtAndGetProjectRef` rejects, `checkRls` rejects
      too (with its own wording), since both derive the reference alike. */
  lemma PlanAgreesWithResolver(supabaseKey: string, decode: string -> Option<Payload>, nowMs: int)
    ensures DecodeJwtAndGetProjectRef(supabaseKey, decode).Failure? ==>
      Plan(supabaseKey, decode, nowMs) == Failure(InvalidKeyMessage)
    ensures Plan(supabaseKey, decode, nowMs).Success? ==>
      DecodeJwtAndGetProjectRef(supabaseKey, decode).Success?
  {
  }

  /** The client's URL is built from the `ref` claim, not from the derived
      reference: a key carrying only `sub` or `iss` is probed at
      `https://undefined.supabase.co`. */
  lemma ProbeUrlIgnoresDerivedRef(supabaseKey: string, decode: string -> Option<Payload>, nowMs: int)
    requires decode(supabaseKey).Some? && decode(supabaseKey).value.ref.None?
    requires Plan(supabaseKey, decode, nowMs).Success?
    ensures Plan(supabaseKey, decode, nowMs).value == "https://undefined.supabase.co"
    ensures DeriveRef(decode(supabaseKey).value).Some?
    ensures DeriveRef(decode(supabaseKey).value).value != "undefined" ==>
      Plan(supabaseKey, decode, nowMs).value != "https://" + DeriveRef(decode(supabaseKey).value).value + ".supabase.co"
  {
    var r := DeriveRef(decode(supabaseKey).value).value;
    if "https://undefined.supabase.co" == "https://" + r + ".supabase.co" {
      assert |r| == 9;
      assert r == ("https://" + r + ".supabase.co")[8..17];
    }
  }

  /** The queries the loop sends, one per table, in order. */
  function Probes(baseUrl: string, apiKey: string, tables: seq<string>): (qs: seq<Query>)
    ensures |qs| == |tables|
    ensures forall i :: 0 <= i < |tables| ==> qs[i] == Query(baseUrl, apiKey, tables[i], RowLimit)
  {
    seq(|tables|, i requires 0 <= i < |tables| => ProbeQuery(baseUrl, apiKey, tables[i]))
  }

  function OptionToSeq<T>(o: Option<T>): seq<T> {
    if o.Some? then [o.value] else []
  }

  /** The entry for table position `i`, if any. */
  function EntryAt(baseUrl: string, apiKey: string, tables: seq<string>, probe: Query -> ProbeOutcome, i: nat): Option<RlsCheckResult>
    requires i < |tables|
  {
    Classify(tables[i], probe(ProbeQuery(baseUrl, apiKey, tables[i])))
  }

  /** The result array after the loop has run over `tables`. */
  function Scan(baseUrl: string, apiKey: string, tables: seq<string>, probe: Query -> ProbeOutcome): (results: seq<RlsCheckResult>)
    ensures |results| <= |tables|
    decreases |tables|
  {
    if tables == [] then []
    else
      var n := |tables| - 1;
      Scan(baseUrl, apiKey, tables[..n], probe) + OptionToSeq(EntryAt(baseUrl, apiKey, tables, probe, n))
  }

  /** The positions of `tables` that produce an entry, in order. */
  ghost function Hits(baseUrl: string, apiKey: string, tables: seq<string>, probe: Query -> ProbeOutcome): seq<nat>
    decreases |tables|
  {
    if tables == [] then []
    else
      var n := |tables| - 1;
      Hits(baseUrl, apiKey, tables[..n], probe) + (if EntryAt(baseUrl, apiKey, tables, probe, n).Some? then [n] else [])
  }

  /** The results are exactly the entries of the positions that produce
      one, in table order, one at most per position. */
  lemma {:induction false} ScanIsOrderedSelection(baseUrl: string, apiKey: string, tables: seq<string>, probe: Query -> ProbeOutcome)
    ensures var results, hits := Scan(baseUrl, apiKey, tables, probe), Hits(baseUrl, apiKey, tables, probe);
      && |hits| == |results|
      && (forall k :: 0 <= k < |hits| ==> hits[k] < |tables| && EntryAt(baseUrl, apiKey, tables, probe, hits[k]) == Some(results[k]))
      && (forall k, l :: 0 <= k < l < |hits| ==> hits[k] < hits[l])
      && (forall i :: 0 <= i < |tables| ==> (EntryAt(baseUrl, apiKey, tables, probe, i).Some? <==> i in hits))
    decreases |tables|
  {
    if tables != [] {
      var n := |tables| - 1;
      var front := tables[..n];
      ScanIsOrderedSelection(baseUrl, apiKey, front, probe);
      forall i | 0 <= i < n
        ensures EntryAt(baseUrl, apiKey, tables, probe, i) == EntryAt(baseUrl, apiKey, front, probe, i)
      {
        assert tables[i] == front[i];
      }
      var rf, hf := Scan(baseUrl, apiKey, front, probe), Hits(baseUrl, apiKey, front, probe);
      var e := EntryAt(baseUrl, apiKey, tables, probe, n);
      if e.Some? {
        assert Scan(baseUrl, apiKey, tables, probe) == rf + [e.value];
        assert Hits(baseUrl, apiKey, tables, probe) == hf + [n];
      } else {
        assert Scan(baseUrl, apiKey, tables, probe) == rf;
        assert Hits(baseUrl, apiKey, tables, probe) == hf;
      }
    }
  }

  /** Running the loop over `a + b` is running it over `a`, then over `b`:
      a table whose probe throws does not stop the ones after it. */
  lemma {:induction false} ScanAppend(baseUrl: string, apiKey: string, a: seq<string>, b: seq<string>, probe: Query -> ProbeOutcome)
    ensures Scan(baseUrl, apiKey, a + b, probe) == Scan(baseUrl, apiKey, a, probe) + Scan(baseUrl, apiKey, b, probe)
    decreases |b|
  {
    if b == [] {
      assert a + b == a;
    } else {
      var n := |b| - 1;
      var ab := a + b;
      assert ab[..|ab| - 1] == a + b[..n];
      assert ab[|ab| - 1] == b[n];
      var last := OptionToSeq(EntryAt(baseUrl, apiKey, b, probe, n));
      assert OptionToSeq(EntryAt(baseUrl, apiKey, ab, probe, |ab| - 1)) == last;
      ScanAppend(baseUrl, apiKey, a, b[..n], probe);
      calc {
        Scan(baseUrl, apiKey, ab, probe);
        Scan(baseUrl, apiKey, a + b[..n], probe) + last;
        Scan(baseUrl, apiKey, a, probe) + Scan(baseUrl, apiKey, b[..n], probe) + last;
        Scan(baseUrl, apiKey, a, probe) + Scan(baseUrl, apiKey, b, probe);
      }
    }
  }

  /** A table whose probe throws gets its error entry in place, between
      the entries of the tables before and after it. */
  lemma ThrownProbeIsRecorded(baseUrl: string, apiKey: string, before: seq<string>, table: string, after: seq<string>, probe: Query -> ProbeOutcome)
    requires probe(ProbeQuery(baseUrl, apiKey, table)).Throws?
    ensures Scan(baseUrl, apiKey, before + [table] + after, probe)
      == Scan(baseUrl, apiKey, before, probe)
         + [RlsCheckResult(table, false, Some(ExceptionPrefix + probe(ProbeQuery(baseUrl, apiKey, table)).message))]
         + Scan(baseUrl, apiKey, after, probe)
  {
    ScanAppend(baseUrl, apiKey, before + [table], after, probe);
    ScanAppend(baseUrl, apiKey, before, [table], probe);
    assert [table][..0] == [];
  }

  /** A table has an `rlsDisabled` entry exactly when it is in `tables`
      and its probe returned a full page. */
  lemma ExposedEntryIff(baseUrl: string, apiKey: string, tables: seq<string>, probe: Query -> ProbeOutcome, table: string)
    ensures var results := Scan(baseUrl, apiKey, tables, probe);
      (exists k :: 0 <= k < |results| && results[k].table == table && results[k].rlsDisabled)
      <==> (table in tables && Exposed(probe(ProbeQuery(baseUrl, apiKey, table))))
  {
    var results, hits := Scan(baseUrl, apiKey, tables, probe), Hits(baseUrl, apiKey, tables, probe);
    ScanIsOrderedSelection(baseUrl, apiKey, tables, probe);
    if exists k :: 0 <= k < |results| && results[k].table == table && results[k].rlsDisabled {
      var k :| 0 <= k < |results| && results[k].table == table && results[k].rlsDisabled;
      assert EntryAt(baseUrl, apiKey, tables, probe, hits[k]) == Some(results[k]);
      assert tables[hits[k]] == table;
    }
    if table in tables && Exposed(probe(ProbeQuery(baseUrl, apiKey, table))) {
      var i :| 0 <= i < |tables| && tables[i] == table;
      assert EntryAt(baseUrl, apiKey, tables, probe, i).Some?;
      var k :| 0 <= k < |hits| && hits[k] == i;
      assert results[k].table == table && results[k].rlsDisabled;
    }
  }

  /** Two tables, one saturating the page and one returning 2 rows: only
      the first is reported (the code pushes nothing for the second). */
  lemma TwoTableScenario(baseUrl: string, apiKey: string, probe: Query -> ProbeOutcome)
    requires probe(ProbeQuery(baseUrl, apiKey, "users")) == Rows(30)
    requires probe(ProbeQuery(baseUrl, apiKey, "orders")) == Rows(2)
    ensures Scan(baseUrl, apiKey, ["users", "orders"], probe) == [RlsCheckResult("users", true, None)]
  {
    assert ["users", "orders"][..1] == ["users"];
    assert ["users"][..0] == [];
  }

  /** `checkRls(supabaseKey, tables)`, returning the promise's value or
      rejection as `outcome` and the queries sent, in order, as `issued`. */
  method CheckRls(supabaseKey: string, tables: seq<string>, decode: string -> Option<Payload>,
                  probe: Query -> ProbeOutcome, nowMs: int)
    returns (outcome: Result<seq<RlsCheckResult>, string>, issued: seq<Query>)
    ensures Plan(supabaseKey, decode, nowMs).Failure? ==>
      outcome == Failure(Plan(supabaseKey, decode, nowMs).error) && issued == []
    ensures Plan(supabaseKey, decode, nowMs).Success? ==>
      var baseUrl := Plan(supabaseKey, decode, nowMs).value;
      outcome == Success(Scan(baseUrl, supabaseKey, tables, probe)) && issued == Probes(baseUrl, supabaseKey, tables)
  {
    var decoded := decode(supabaseKey);
    if decoded.None? {
      return Failure(InvalidKeyMessage), [];
    }
    var payload := decoded.value;
    var projectRef := DeriveRef(payload);
    if projectRef.None? || !ExpLoggable(payload) {
      return Failure(InvalidKeyMessage), [];
    }
    if IsTokenExpired(payload, nowMs) {
      return Failure(ExpiredMessage), [];
    }
    var baseUrl := "https://" + RefText(payload.ref) + ".supabase.co";
    var results: seq<RlsCheckResult> := [];
    issued := [];
    for i := 0 to |tables|
      invariant results == Scan(baseUrl, supabaseKey, tables[..i], probe)
      invariant issued == Probes(baseUrl, supabaseKey, tables[..i])
    {
      var table := tables[i];
      var query := Query(baseUrl, supabaseKey, table, RowLimit);
      issued := issued + [query];
      match probe(query) {
        case Rows(n) =>
          if n >= RowLimit {
            results := results + [RlsCheckResult(table, true, None)];
          }
        case NoData =>
        case Throws(message) =>
          results := results + [RlsCheckResult(table, false, Some(ExceptionPrefix + message))];
      }
      assert tables[..i + 1][..i] == tables[..i];
    }
    assert tables[..|tables|] == tables;
    outcome := Success(results);
  }
}
