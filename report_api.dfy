/** The client side of the report endpoints (src/shared/services/report.api.ts): digging
    requests out of loosely shaped responses, probing candidate endpoints in order, and the
    status and content-type decisions of the report download. The network is a parameter:
    the outcome each call would have, or a `fetch` from URL to response. */
module ReportApi {
  import opened Js
  import opened ReportTypes
  import opened ReportNormalize
  import opened RequestOrder

  /** What a call can throw: an ApiError with its HTTP status, any other Error, or the URIError
      of a malformed percent-encoding. */
  datatype Failure = ApiError(status: int, message: string) | PlainError(message: string) | UriError

  datatype Result<T> = Ok(value: T) | Err(error: Failure)

  // ---------------------------------------------------------------------------------------
  // Digging requests out of a response

  /** `a || b || ... || last`: the first truthy value, else the last one. */
  function FirstTruthy(candidates: seq<Value>, last: Value): (r: Value)
    ensures (forall i :: 0 <= i < |candidates| ==> !Truthy(candidates[i])) ==> r == last
    ensures FirstWhere(candidates, Truthy) < |candidates| ==> r == candidates[FirstWhere(candidates, Truthy)]
  {
    if candidates == [] then last
    else if Truthy(candidates[0]) then candidates[0]
    else FirstTruthy(candidates[1..], last)
  }

  function Data(payload: Value): Value
  {
    Get(payload, "data")
  }

  /** The places a single request may sit in a response, in order of preference. */
  function RequestLikeCandidates(payload: Value): seq<Value>
  {
    [Get(Data(payload), "request"), Get(Data(payload), "reportRequest"), Get(Data(payload), "report"),
     Get(payload, "request"), Get(payload, "reportRequest"), Get(payload, "report")]
  }

  /** pickRequestLikeObject: the first truthy candidate, else the payload itself. */
  function PickRequestLikeObject(payload: Value): (r: Value)
    ensures var candidates := RequestLikeCandidates(payload); var k := FirstWhere(candidates, Truthy);
      r == if k < |candidates| then candidates[k] else payload
    ensures (!Truthy(Data(payload)) && !Truthy(Get(payload, "request")) && !Truthy(Get(payload, "reportRequest"))
             && !Truthy(Get(payload, "report"))) ==> r == payload
  {
    FirstTruthy(RequestLikeCandidates(payload), payload)
  }

  /** The places a list of requests may sit in a response, in order of preference. */
  function ListCandidates(payload: Value): (r: seq<Value>)
    ensures |r| == 9 && r[8] == payload
  {
    [Get(Data(payload), "reports"), Get(Data(payload), "requests"), Get(Data(payload), "reportRequests"),
     Get(Data(payload), "items"), Get(payload, "reports"), Get(payload, "requests"), Get(payload, "reportRequests"),
     Get(payload, "items"), payload]
  }

  predicate NormalizesToSome(v: Value)
  {
    NormalizeRequestCollection(v) != []
  }

  /** The collection of the first candidate that normalises to a non-empty list, else []. */
  function FirstCollection(candidates: seq<Value>): (r: seq<ReportRequest>)
    ensures var k := FirstWhere(candidates, NormalizesToSome);
      r == if k < |candidates| then NormalizeRequestCollection(candidates[k]) else []
  {
    if candidates == [] then []
    else if NormalizeRequestCollection(candidates[0]) != [] then NormalizeRequestCollection(candidates[0])
    else FirstCollection(candidates[1..])
  }

  /** getRequestList. */
  function GetRequestList(payload: Value): (r: seq<ReportRequest>)
    ensures forall x :: x in r ==> Identified(x) && Canonical(x)
  {
    var candidates := ListCandidates(payload);
    var k := FirstWhere(candidates, NormalizesToSome);
    CollectionCanonical(if k < |candidates| then candidates[k] else Null);
    FirstCollection(candidates)
  }

  /** Every request a collection normalises to is canonical. */
  lemma CollectionCanonical(raw: Value)
    ensures forall x :: x in NormalizeRequestCollection(raw) ==> Canonical(x)
  {
    if raw.Arr? {
      forall x | x in NormalizeRequestCollection(raw) ensures Canonical(x) {
        assert x in NormalizeAll(raw.items);
      }
    }
  }

  /** The loop of getRequestList: returns the first non-empty normalised candidate. */
  method FindRequestList(payload: Value) returns (r: seq<ReportRequest>)
    ensures r == GetRequestList(payload)
  {
    var candidates := ListCandidates(payload);
    var i := 0;
    while i < |candidates|
      invariant 0 <= i <= |candidates|
      invariant FirstCollection(candidates) == FirstCollection(candidates[i..])
    {
      var normalized := NormalizeRequestCollection(candidates[i]);
      if normalized != [] {
        return normalized;
      }
      assert candidates[i..][1..] == candidates[i + 1..];
      i := i + 1;
    }
    return [];
  }

  /** `requestLike.id || requestLike.studentId`. */
  predicate HasIdentity(r: ReportRequest)
  {
    r.id != "" || r.studentId != ""
  }

  /** extractSingleRequest: the most recent listed request, else the request-like object when it
      carries an id or a student id, else nothing. */
  function ExtractSingleRequest(payload: Value, parse: string -> int): (r: Option<ReportRequest>)
    ensures GetRequestList(payload) != [] ==> r == MostRecent(GetRequestList(payload), parse)
    ensures GetRequestList(payload) == [] ==>
      var requestLike := NormalizeReportRequest(PickRequestLikeObject(payload));
      r == if HasIdentity(requestLike) then Some(requestLike) else None
    ensures r.Some? ==> Identified(r.value) && Canonical(r.value)
  {
    var fromList := MostRecent(GetRequestList(payload), parse);
    if fromList.Some? then fromList
    else
      var requestLike := NormalizeReportRequest(PickRequestLikeObject(payload));
      if HasIdentity(requestLike) then Some(requestLike) else None
  }

  // ---------------------------------------------------------------------------------------
  // Query strings

  /** The status filter of listRequests. */
  datatype FilterStatus = Only(status: Status) | All

  /** `params.toString()`: name=value pairs joined by '&', names and values form-encoded. */
  function Param(name: string, value: string, encode: string -> string): string
  {
    encode(name) + "=" + encode(value)
  }

  function Serialize(params: seq<(string, string)>, encode: string -> string): (r: string)
    ensures params == [] <==> r == ""
  {
    if params == [] then ""
    else
      var pair := Param(params[0].0, params[0].1, encode);
      if |params| == 1 then pair else pair + "&" + Serialize(params[1..], encode)
  }

  /** `query ? '?' + query : ''`. */
  function QueryText(params: seq<(string, string)>, encode: string -> string): (r: string)
    ensures params == [] <==> r == ""
    ensures params != [] ==> r == "?" + Serialize(params, encode)
  {
    var query := Serialize(params, encode);
    if query != "" then "?" + query else ""
  }

  /** stringifyQuery: sets `status` unless it is absent or ALL, then `courseId` when it is
      non-empty. */
  method StringifyQuery(status: Option<FilterStatus>, courseId: Option<string>, encode: string -> string)
    returns (q: string)
    ensures q == "" <==> (status.None? || status.value.All?) && (courseId.None? || courseId.value == "")
    ensures status.Some? && status.value.Only? && (courseId.None? || courseId.value == "") ==>
      q == "?" + Param("status", StatusName(status.value.status), encode)
    ensures (status.None? || status.value.All?) && courseId.Some? && courseId.value != "" ==>
      q == "?" + Param("courseId", courseId.value, encode)
    ensures status.Some? && status.value.Only? && courseId.Some? && courseId.value != "" ==>
      q == "?" + Param("status", StatusName(status.value.status), encode) + "&" + Param("courseId", courseId.value, encode)
  {
    var params: seq<(string, string)> := [];
    ghost var byStatus := status.Some? && status.value.Only?;
    ghost var byCourse := courseId.Some? && courseId.value != "";
    if status.Some? && status.value.Only? {
      params := params + [("status", StatusName(status.value.status))];
    }
    if courseId.Some? && courseId.value != "" {
      params := params + [("courseId", courseId.value)];
    }
    q := QueryText(params, encode);
    if byStatus && byCourse {
      var a, b := ("status", StatusName(status.value.status)), ("courseId", courseId.value);
      assert params == [a, b];
      SerializePair(a, b, encode);
    } else if byStatus {
      assert params == [("status", StatusName(status.value.status))];
    } else if byCourse {
      assert params == [("courseId", courseId.value)];
    }
  }

  lemma SerializePair(a: (string, string), b: (string, string), encode: string -> string)
    ensures "?" + Serialize([a, b], encode) == "?" + Param(a.0, a.1, encode) + "&" + Param(b.0, b.1, encode)
  {
    assert [a, b][1..] == [b];
    var p0, p1 := Param(a.0, a.1, encode), Param(b.0, b.1, encode);
    assert "?" + (p0 + "&" + p1) == "?" + p0 + "&" + p1;
  }

  // ---------------------------------------------------------------------------------------
  // Probing endpoints

  /** isNotFound. */
  predicate IsNotFound(e: Failure)
  {
    e.ApiError? && e.status == 404
  }

  /** A call after which probing stops: it succeeded, or it failed other than with 404. */
  predicate Stops<T>(outcome: Result<T>)
  {
    outcome.Ok? || !IsNotFound(outcome.error)
  }

  const NoEndpoint := PlainError("No matching endpoint for report workflow.")

  /** tryFallback: invokes the calls in order until one succeeds or fails with anything but a
      404. `outcomes[i]` is what the i-th call yields when invoked; `invoked` counts the calls
      made. */
  method TryFallback<T>(outcomes: seq<Result<T>>) returns (r: Result<T>, invoked: nat)
    ensures var k := FirstWhere(outcomes, Stops);
      && invoked == (if k < |outcomes| then k + 1 else |outcomes|)
      && r == (if k < |outcomes| then outcomes[k]
               else if outcomes == [] then Err(NoEndpoint)
               else outcomes[|outcomes| - 1])
  {
    var lastError: Option<Failure> := None;
    var i := 0;
    while i < |outcomes|
      invariant 0 <= i <= |outcomes|
      invariant forall j :: 0 <= j < i ==> !Stops(outcomes[j])
      invariant i == 0 <==> lastError.None?
      invariant i > 0 ==> lastError == Some(outcomes[i - 1].error)
    {
      var outcome := outcomes[i];
      if outcome.Ok? {
        return outcome, i + 1;
      }
      lastError := Some(outcome.error);
      if !IsNotFound(outcome.error) {
        return Err(outcome.error), i + 1;
      }
      i := i + 1;
    }
    invoked := |outcomes|;
    r := if lastError.Some? then Err(lastError.value) else Err(NoEndpoint);
  }

  // ---------------------------------------------------------------------------------------
  // What the service operations make of the probed response

  /** requestDownload: the extracted request, else the request-like object, normalised. */
  function RequestDownloadResult(response: Value, parse: string -> int): (r: ReportRequest)
    ensures ExtractSingleRequest(response, parse).Some? ==> r == ExtractSingleRequest(response, parse).value
    ensures ExtractSingleRequest(response, parse).None? ==> r == NormalizeReportRequest(PickRequestLikeObject(response))
  {
    var extracted := ExtractSingleRequest(response, parse);
    if extracted.Some? then
      NormalizeCanonical(extracted.value);
      NormalizeReportRequest(ToJson(extracted.value))
    else NormalizeReportRequest(PickRequestLikeObject(response))
  }

  /** getLearnerRequest: a 404 from every endpoint means no request; other failures propagate. */
  function LearnerRequestResult(probe: Result<Value>, parse: string -> int): (r: Result<Option<ReportRequest>>)
    ensures probe.Err? && IsNotFound(probe.error) ==> r == Ok(None)
    ensures probe.Err? && !IsNotFound(probe.error) ==> r == Err(probe.error)
    ensures probe.Ok? ==> r == Ok(ExtractSingleRequest(probe.value, parse))
  {
    match probe
    case Ok(response) => Ok(ExtractSingleRequest(response, parse))
    case Err(e) => if IsNotFound(e) then Ok(None) else Err(e)
  }

  /** listRequests: the request list of the response. */
  function ListRequestsResult(probe: Result<Value>): (r: Result<seq<ReportRequest>>)
    ensures probe.Err? ==> r == Err(probe.error)
    ensures probe.Ok? ==> r == Ok(GetRequestList(probe.value))
    ensures r.Ok? ==> forall x :: x in r.value ==> Identified(x)
  {
    match probe
    case Ok(response) => Ok(GetRequestList(response))
    case Err(e) => Err(e)
  }

  /** decideRequest: the request-like object of the response, normalised. */
  function DecideRequestResult(probe: Result<Value>): (r: Result<ReportRequest>)
    ensures probe.Err? ==> r == Err(probe.error)
    ensures probe.Ok? ==> r == Ok(NormalizeReportRequest(PickRequestLikeObject(probe.value)))
    ensures r.Ok? ==> Canonical(r.value)
  {
    match probe
    case Ok(response) => Ok(NormalizeReportRequest(PickRequestLikeObject(response)))
    case Err(e) => Err(e)
  }

  // ---------------------------------------------------------------------------------------
  // Content-Disposition file names

  /** The regular expression `i` flag on an ASCII pattern: ASCII letters fold to lower case; no
      other character folds onto an ASCII one. */
  function FoldAscii(c: char): char
  {
    if 'A' <= c <= 'Z' then (c as int + 32) as char else c
  }

  /** Whether `s` matches the lower-case literal `lit` at position `i`, ignoring ASCII case. */
  predicate MatchesAt(s: string, i: nat, lit: string)
  {
    i + |lit| <= |s| && forall k :: 0 <= k < |lit| ==> FoldAscii(s[i + k]) == lit[k]
  }

  /** The longest run of characters other than `stop` from position `j`: a greedy `[^stop]*`. */
  function RunUntil(s: string, j: nat, stop: char): (r: string)
    requires j <= |s|
    ensures j + |r| <= |s| && r == s[j..j + |r|]
    ensures forall k :: 0 <= k < |r| ==> r[k] != stop
    ensures j + |r| == |s| || s[j + |r|] == stop
    decreases |s| - j
  {
    if j == |s| || s[j] == stop then "" else [s[j]] + RunUntil(s, j + 1, stop)
  }

  const Utf8Prefix := "filename*=utf-8''"
  const PlainPrefix := "filename="

  /** Where `/filename\*=UTF-8''([^;]+)/i` matches at position i. */
  predicate Utf8MatchAt(s: string, i: nat)
  {
    MatchesAt(s, i, Utf8Prefix) && i + |Utf8Prefix| < |s| && s[i + |Utf8Prefix|] != ';'
  }

  /** `m` is where the UTF-8 pattern matches first from `i` on. */
  predicate LeftmostUtf8(s: string, i: nat, m: nat)
  {
    i <= m < |s| && Utf8MatchAt(s, m) && forall j :: i <= j < m ==> !Utf8MatchAt(s, j)
  }

  /** The leftmost position from `i` on where the UTF-8 pattern matches, or |s|. */
  function FirstUtf8Match(s: string, i: nat): (m: nat)
    requires i <= |s|
    ensures i <= m <= |s|
    ensures m < |s| ==> Utf8MatchAt(s, m)
    ensures forall j :: i <= j < m ==> !Utf8MatchAt(s, j)
    decreases |s| - i
  {
    if i == |s| || Utf8MatchAt(s, i) then i else FirstUtf8Match(s, i + 1)
  }

  /** The capture group of the leftmost match of `/filename\*=UTF-8''([^;]+)/i` from `i` on: the
      greedy run of non-`;` characters after the prefix of that match. */
  function Utf8Capture(s: string, i: nat): (r: Option<string>)
    requires i <= |s|
    ensures r.Some? ==> r.value != [] && forall k :: 0 <= k < |r.value| ==> r.value[k] != ';'
    ensures r.None? <==> forall j :: i <= j < |s| ==> !Utf8MatchAt(s, j)
    ensures forall m: nat :: LeftmostUtf8(s, i, m) ==>
      r == Some(RunUntil(s, m + |Utf8Prefix|, ';'))
  {
    FirstUtf8MatchUnique(s, i);
    var m := FirstUtf8Match(s, i);
    if m < |s| then
      var start := m + |Utf8Prefix|;
      assert s[start] != ';';
      Some(RunUntil(s, start, ';'))
    else None
  }

  /** Where `/filename="?([^"]+)"?/i` matches at position i, and where its group starts. */
  predicate PlainMatchAt(s: string, i: nat)
  {
    var j := i + |PlainPrefix|;
    MatchesAt(s, i, PlainPrefix) && j < |s| && (s[j] != '"' || (j + 1 < |s| && s[j + 1] != '"'))
  }

  /** `m` is where the plain pattern matches first from `i` on. */
  predicate LeftmostPlain(s: string, i: nat, m: nat)
  {
    i <= m < |s| && PlainMatchAt(s, m) && forall j :: i <= j < m ==> !PlainMatchAt(s, j)
  }

  /** The leftmost position from `i` on where the plain pattern matches, or |s|. */
  function FirstPlainMatch(s: string, i: nat): (m: nat)
    requires i <= |s|
    ensures i <= m <= |s|
    ensures m < |s| ==> PlainMatchAt(s, m)
    ensures forall j :: i <= j < m ==> !PlainMatchAt(s, j)
    decreases |s| - i
  {
    if i == |s| || PlainMatchAt(s, i) then i else FirstPlainMatch(s, i + 1)
  }

  /** The capture group of the leftmost match of `/filename="?([^"]+)"?/i` from `i` on: the
      greedy run of non-quote characters after the prefix of that match, an opening quote being
      skipped when a non-quote follows it. */
  function PlainCapture(s: string, i: nat): (r: Option<string>)
    requires i <= |s|
    ensures r.Some? ==> r.value != [] && forall k :: 0 <= k < |r.value| ==> r.value[k] != '"'
    ensures r.None? <==> forall j :: i <= j < |s| ==> !PlainMatchAt(s, j)
    ensures forall m: nat :: LeftmostPlain(s, i, m) ==>
      r == Some(RunUntil(s, PlainGroupStart(s, m), '"'))
  {
    FirstPlainMatchUnique(s, i);
    var m := FirstPlainMatch(s, i);
    if m < |s| then Some(RunUntil(s, PlainGroupStart(s, m), '"')) else None
  }

  /** Where the group of a plain match at m starts: past the prefix, and past an opening quote
      that a non-quote follows. */
  function PlainGroupStart(s: string, m: nat): (start: nat)
    requires PlainMatchAt(s, m)
    ensures start < |s| && s[start] != '"'
    ensures var j := m + |PlainPrefix|; start == if s[j] == '"' then j + 1 else j
  {
    var j := m + |PlainPrefix|;
    if s[j] == '"' then j + 1 else j
  }

  /** A UTF-8 match with none before it, from `i` on, is the one FirstUtf8Match finds. */
  lemma FirstUtf8MatchUnique(s: string, i: nat)
    requires i <= |s|
    ensures forall m: nat :: LeftmostUtf8(s, i, m) ==>
      FirstUtf8Match(s, i) == m
  {
    var k := FirstUtf8Match(s, i);
    forall m: nat | LeftmostUtf8(s, i, m)
      ensures k == m
    {
      assert !(k < m);
      assert !(m < k);
    }
  }

  /** A plain match with none before it, from `i` on, is the one FirstPlainMatch finds. */
  lemma FirstPlainMatchUnique(s: string, i: nat)
    requires i <= |s|
    ensures forall m: nat :: LeftmostPlain(s, i, m) ==>
      FirstPlainMatch(s, i) == m
  {
    forall m: nat | LeftmostPlain(s, i, m)
      ensures FirstPlainMatch(s, i) == m
    {
      FirstPlainMatchIs(s, i, m);
    }
  }

  /** A plain match with none before it, from `i` on, is the one FirstPlainMatch finds. */
  lemma FirstPlainMatchIs(s: string, i: nat, m: nat)
    requires i <= m < |s| && PlainMatchAt(s, m)
    requires forall j :: i <= j < m ==> !PlainMatchAt(s, j)
    ensures FirstPlainMatch(s, i) == m
  {
    var k := FirstPlainMatch(s, i);
    assert !(k < m);
    assert !(m < k);
  }

  predicate IsQuote(c: char)
  {
    c == '\'' || c == '"'
  }

  /** `.replace(/['"]/g, '')`: every quote removed, every other character kept, in order and as
      often as it occurs (StripQuotesSplits). */
  function StripQuotes(s: string): (r: string)
    ensures |r| <= |s|
    ensures forall k :: 0 <= k < |r| ==> r[k] != '\'' && r[k] != '"'
    ensures (forall k :: 0 <= k < |s| ==> s[k] != '\'' && s[k] != '"') ==> r == s
  {
    if s == [] then ""
    else (if IsQuote(s[0]) then "" else [s[0]]) + StripQuotes(s[1..])
  }

  /** Stripping works character by character: the result for `a + b` is the result for `a`
      followed by the result for `b`, and one character is dropped exactly when it is a quote. */
  lemma {:induction false} StripQuotesSplits(a: string, b: string)
    ensures StripQuotes(a + b) == StripQuotes(a) + StripQuotes(b)
    ensures forall c :: StripQuotes([c]) == if IsQuote(c) then "" else [c]
  {
    if a == [] {
      assert a + b == b;
    } else {
      var rest := a[1..];
      assert (a + b)[0] == a[0];
      assert (a + b)[1..] == rest + b;
      StripQuotesSplits(rest, b);
      var head := if IsQuote(a[0]) then "" else [a[0]];
      assert head + (StripQuotes(rest) + StripQuotes(b)) == (head + StripQuotes(rest)) + StripQuotes(b);
    }
    forall c ensures StripQuotes([c]) == if IsQuote(c) then "" else [c] {
      assert [c][1..] == [];
    }
  }

  /** What parseFileName yields: no name, a name, or the URIError decodeURIComponent throws. */
  datatype FileName = NoFileName | FileName(name: string) | DecodeFailed

  /** parseFileName, with `decodeURIComponent` as `decode` (None where it throws). */
  function ParseFileName(header: Option<string>, decode: string -> Option<string>): (r: FileName)
    ensures header.None? || header.value == "" ==> r == NoFileName
    ensures header.Some? && Utf8Capture(header.value, 0).Some? ==>
      r == (match decode(Utf8Capture(header.value, 0).value)
            case Some(d) => FileName(StripQuotes(d))
            case None => DecodeFailed)
    ensures header.Some? && Utf8Capture(header.value, 0).None? ==>
      r == (if PlainCapture(header.value, 0).Some? then FileName(PlainCapture(header.value, 0).value) else NoFileName)
    ensures r.FileName? && header.Some? && Utf8Capture(header.value, 0).Some? ==>
      forall k :: 0 <= k < |r.name| ==> r.name[k] != '\'' && r.name[k] != '"'
  {
    if header.None? || header.value == "" then NoFileName
    else
      var utf8 := Utf8Capture(header.value, 0);
      if utf8.Some? then
        match decode(utf8.value)
        case Some(decoded) => FileName(StripQuotes(decoded))
        case None => DecodeFailed
      else
        var plain := PlainCapture(header.value, 0);
        if plain.Some? then FileName(plain.value) else NoFileName
  }

  /** A header without the UTF-8 form whose first `filename=` is followed by a quoted name
      yields that name without its quotes. */
  lemma QuotedPlainName(s: string, m: nat, name: string, decode: string -> Option<string>)
    requires s != [] && Utf8Capture(s, 0).None?
    requires MatchesAt(s, m, PlainPrefix) && forall j :: 0 <= j < m ==> !MatchesAt(s, j, PlainPrefix)
    requires name != [] && forall k :: 0 <= k < |name| ==> name[k] != '"'
    requires m + |PlainPrefix| + |name| + 2 <= |s|
    requires s[m + |PlainPrefix|] == '"' && s[m + |PlainPrefix| + 1..m + |PlainPrefix| + 1 + |name|] == name
    requires s[m + |PlainPrefix| + 1 + |name|] == '"'
    ensures ParseFileName(Some(s), decode) == FileName(name)
  {
    QuotedCapture(s, m, name);
    PlainFirst(s, 0, m);
    assert PlainCapture(s, 0) == Some(name);
  }

  /** The group of a match at `m` whose value is quoted is the text between the quotes. */
  lemma QuotedCapture(s: string, m: nat, name: string)
    requires MatchesAt(s, m, PlainPrefix)
    requires name != [] && forall k :: 0 <= k < |name| ==> name[k] != '"'
    requires m + |PlainPrefix| + |name| + 2 <= |s|
    requires s[m + |PlainPrefix|] == '"' && s[m + |PlainPrefix| + 1..m + |PlainPrefix| + 1 + |name|] == name
    requires s[m + |PlainPrefix| + 1 + |name|] == '"'
    ensures PlainMatchAt(s, m) && PlainCapture(s, m) == Some(name)
  {
    var j := m + |PlainPrefix|;
    assert s[j + 1] == name[0];
    RunUntilExact(s, j + 1, name);
  }

  /** A match at `m` with no `filename=` between `i` and `m` is the leftmost match from `i`. */
  lemma PlainFirst(s: string, i: nat, m: nat)
    requires i <= m < |s|
    requires PlainMatchAt(s, m)
    requires forall j :: i <= j < m ==> !MatchesAt(s, j, PlainPrefix)
    ensures FirstPlainMatch(s, i) == m && PlainCapture(s, i) == PlainCapture(s, m)
  {
    var first := FirstPlainMatch(s, i);
    assert first <= m;
    assert first < |s| ==> MatchesAt(s, first, PlainPrefix);
    assert FirstPlainMatch(s, m) == m;
  }

  lemma {:induction false} RunUntilExact(s: string, j: nat, run: string)
    requires j + |run| < |s| && s[j..j + |run|] == run && s[j + |run|] == '"'
    requires forall k :: 0 <= k < |run| ==> run[k] != '"'
    ensures RunUntil(s, j, '"') == run
    decreases |run|
  {
    if run != [] {
      assert s[j] == run[0];
      assert s[j + 1..j + 1 + |run[1..]|] == run[1..];
      RunUntilExact(s, j + 1, run[1..]);
    }
  }

  // ---------------------------------------------------------------------------------------
  // downloadApprovedReport

  /** One fetched response: status, content type ('' when absent), Content-Disposition and the
      parsed JSON body (None when the body is not valid JSON, which `.catch(() => ({}))` turns
      into `{}`). */
  datatype Response = Response(status: int, contentType: string, disposition: Option<string>, body: Option<Value>)

  datatype Download = UrlDownload(url: string, fileName: string) | BlobDownload(fileName: string)

  predicate IsOk(r: Response) { 200 <= r.status <= 299 }

  predicate IsJson(r: Response) { Contains(r.contentType, "application/json") }

  function JsonBody(r: Response): Value
  {
    r.body.GetOr(Obj(map[]))
  }

  const DefaultDownloadMessage := "Unable to download report."
  const NotPdf := PlainError("Report download did not return a PDF file.")

  /** `asJson && toRecord(asJson)[key] && String(toRecord(asJson)[key])`, read as a message. */
  function MessageField(asJson: Value, key: string): Option<string>
  {
    var field := Get(asJson, key);
    if Truthy(asJson) && Truthy(field) && ToJsString(field) != "" then Some(ToJsString(field)) else None
  }

  /** The message of a failed response: its JSON `message`, else its JSON `error`, else the
      default sentence. */
  function ErrorMessage(r: Response): (m: string)
    ensures m != ""
    ensures !IsJson(r) ==> m == DefaultDownloadMessage
    ensures IsJson(r) ==>
      var message, error := Get(JsonBody(r), "message"), Get(JsonBody(r), "error");
      m == if Truthy(message) && ToJsString(message) != "" then ToJsString(message)
           else if Truthy(error) && ToJsString(error) != "" then ToJsString(error)
           else DefaultDownloadMessage
  {
    if !IsJson(r) then DefaultDownloadMessage
    else
      var asJson := JsonBody(r);
      var message := MessageField(asJson, "message");
      if message.Some? then message.value
      else
        var error := MessageField(asJson, "error");
        if error.Some? then error.value else DefaultDownloadMessage
  }

  /** `edulearn-report-${Date.now()}.pdf`. */
  function DefaultFileName(now: nat): string
  {
    "edulearn-report-" + NatText(now) + ".pdf"
  }

  /** `data.url || data.downloadUrl || data.reportUrl || data.fileUrl || body.url`. */
  function UrlValue(body: Value): Value
  {
    var data := Data(body);
    Or(Or(Or(Or(Get(data, "url"), Get(data, "downloadUrl")), Get(data, "reportUrl")), Get(data, "fileUrl")),
       Get(body, "url"))
  }

  function NotApprovedMessage(s: Status): string
  {
    "Report is " + StatusName(s) + ". Approval is required before download."
  }

  /** What one candidate's response does to the loop: stop with a result or an error, or
      record an error and go on to the next candidate. */
  datatype Step = Stop(result: Result<Download>) | Continue(error: Failure)

  /** The body of the download loop for one response. */
  function DownloadStep(r: Response, decode: string -> Option<string>, parse: string -> int, now: nat): (s: Step)
    ensures !IsOk(r) && (r.status == 401 || r.status == 403) ==> s == Stop(Err(ApiError(r.status, ErrorMessage(r))))
    ensures !IsOk(r) && r.status != 401 && r.status != 403 ==> s == Continue(ApiError(r.status, ErrorMessage(r)))
    ensures IsOk(r) && ParseFileName(r.disposition, decode).DecodeFailed? ==> s == Stop(Err(UriError))
    ensures IsOk(r) && !IsJson(r) && !ParseFileName(r.disposition, decode).DecodeFailed? ==> s.Stop? && s.result.Ok? && s.result.value.BlobDownload?
    ensures IsOk(r) && IsJson(r) && !ParseFileName(r.disposition, decode).DecodeFailed? ==>
      var url := UrlValue(JsonBody(r));
      var extracted := ExtractSingleRequest(JsonBody(r), parse);
      && (url.Str? && url.s != "" ==> s.Stop? && s.result.Ok? && s.result.value == UrlDownload(url.s, s.result.value.fileName))
      && (!(url.Str? && url.s != "") && extracted.Some? && extracted.value.status != Approved ==>
            s == Stop(Err(ApiError(403, NotApprovedMessage(extracted.value.status)))))
      && (!(url.Str? && url.s != "") && (extracted.None? || extracted.value.status == Approved) ==> s == Continue(NotPdf))
    ensures s.Stop? && s.result.Ok? ==> s.result.value.fileName != ""
  {
    if !IsOk(r) then
      var error := ApiError(r.status, ErrorMessage(r));
      if r.status == 404 || r.status == 405 then Continue(error)
      else if r.status == 401 || r.status == 403 then Stop(Err(error))
      else Continue(error)
    else
      var parsed := ParseFileName(r.disposition, decode);
      if parsed.DecodeFailed? then Stop(Err(UriError))
      else
        var fileName := if parsed.FileName? && parsed.name != "" then parsed.name else DefaultFileName(now);
        if IsJson(r) then
          var body := JsonBody(r);
          var url := UrlValue(body);
          if url.Str? && url.s != "" then Stop(Ok(UrlDownload(url.s, fileName)))
          else
            var extracted := ExtractSingleRequest(body, parse);
            if extracted.Some? && extracted.value.status != Approved then
              Stop(Err(ApiError(403, NotApprovedMessage(extracted.value.status))))
            else Continue(NotPdf)
        else Stop(Ok(BlobDownload(fileName)))
  }

  /** The file name of a successful download: the parsed name when it is non-empty, else the
      timestamped default. */
  lemma DownloadFileName(r: Response, decode: string -> Option<string>, parse: string -> int, now: nat)
    requires DownloadStep(r, decode, parse, now).Stop? && DownloadStep(r, decode, parse, now).result.Ok?
    ensures var name := DownloadStep(r, decode, parse, now).result.value.fileName;
      var parsed := ParseFileName(r.disposition, decode);
      name == if parsed.FileName? && parsed.name != "" then parsed.name else DefaultFileName(now)
  {
  }

  predicate IsStop(s: Step) { s.Stop? }

  /** The step of each candidate, in order. */
  function StepsOf<U>(candidates: seq<U>, step: U -> Step): (steps: seq<Step>)
    ensures |steps| == |candidates|
    ensures forall i :: 0 <= i < |candidates| ==> steps[i] == step(candidates[i])
  {
    seq(|candidates|, i requires 0 <= i < |candidates| => step(candidates[i]))
  }

  /** The loop of downloadApprovedReport over abstract candidates: takes each candidate's step
      in turn until one stops, remembering the error of the last one that did not; `fetched`
      counts the candidates tried. */
  method Probe<U>(candidates: seq<U>, step: U -> Step) returns (r: Result<Download>, fetched: nat)
    ensures var steps := StepsOf(candidates, step);
      var k := FirstWhere(steps, IsStop);
      && fetched == (if k < |steps| then k + 1 else |steps|)
      && r == (if k < |steps| then steps[k].result
               else if steps == [] then Err(PlainError(DefaultDownloadMessage))
               else Err(steps[|steps| - 1].error))
  {
    ghost var steps := StepsOf(candidates, step);
    var lastError: Option<Failure> := None;
    var i := 0;
    while i < |candidates|
      invariant 0 <= i <= |candidates|
      invariant forall j :: 0 <= j < i ==> steps[j].Continue?
      invariant i == 0 <==> lastError.None?
      invariant i > 0 ==> lastError == Some(steps[i - 1].error)
    {
      var s := step(candidates[i]);
      assert steps[i] == s;
      if s.Stop? {
        assert IsStop(steps[i]);
        return s.result, i + 1;
      }
      lastError := Some(s.error);
      i := i + 1;
    }
    fetched := |candidates|;
    r := if lastError.Some? then Err(lastError.value) else Err(PlainError(DefaultDownloadMessage));
  }

  /** Fetching a candidate URL and taking the loop body's step on the response. */
  function StepOf(fetch: string -> Response, decode: string -> Option<string>, parse: string -> int, now: nat)
    : string -> Step
  {
    (url: string) => DownloadStep(fetch(url), decode, parse, now)
  }

  /** downloadApprovedReport's loop over the candidate URLs, fetching each with `fetch`. */
  method DownloadApprovedReport(candidates: seq<string>, fetch: string -> Response, decode: string -> Option<string>,
                                parse: string -> int, now: nat)
    returns (r: Result<Download>, fetched: nat)
    ensures var steps := StepsOf(candidates, StepOf(fetch, decode, parse, now));
      var k := FirstWhere(steps, IsStop);
      && fetched == (if k < |steps| then k + 1 else |steps|)
      && r == (if k < |steps| then steps[k].result
               else if steps == [] then Err(PlainError(DefaultDownloadMessage))
               else Err(steps[|steps| - 1].error))
  {
    r, fetched := Probe(candidates, StepOf(fetch, decode, parse, now));
  }

  /** The five URLs the download probes, from the API base and the serialised query. */
  function DownloadCandidates(base: string, query: string): (r: seq<string>)
    ensures |r| == 5
    ensures r[1] == base + "/reports/" && r[2] == base + "/reports"
    ensures query == "" ==> r[0] == base + "/reports/download" && r[3] == r[2] && r[4] == r[1]
    ensures query != "" ==> r[0] == base + "/reports/download?" + query && r[3] == base + "/reports?" + query
    ensures query != "" ==> r[4] == base + "/reports/?" + query
  {
    var queryString := if query != "" then "?" + query else "";
    var withSlash := if query != "" then "/?" + query else "/";
    assert query == "" ==> base + "/reports/download" + queryString == base + "/reports/download";
    assert query == "" ==> base + "/reports" + queryString == base + "/reports";
    assert base + "/reports" + "/" == base + "/reports/";
    assert base + "/reports" + ("/?" + query) == base + "/reports/?" + query;
    assert base + "/reports" + ("?" + query) == base + "/reports?" + query;
    assert base + "/reports/download" + ("?" + query) == base + "/reports/download?" + query;
    [base + "/reports/download" + queryString, base + "/reports/", base + "/reports", base + "/reports" + queryString,
     base + "/reports" + withSlash]
  }

  /** `if (value) query.set(name, value)`: the pair when the value is non-empty, else nothing. */
  function OptionalParam(name: string, value: Option<string>): (ps: seq<(string, string)>)
    ensures ps == [] <==> OrText(value, "") == ""
    ensures ps != [] ==> ps == [(name, value.value)]
  {
    if value.Some? && value.value != "" then [(name, value.value)] else []
  }

  /** The query of the download: requestId, courseId and quizId, each when non-empty, in that
      order. */
  method DownloadQuery(requestId: Option<string>, courseId: Option<string>, quizId: Option<string>, encode: string -> string)
    returns (query: string)
    ensures query == "" <==> OrText(requestId, "") == "" && OrText(courseId, "") == "" && OrText(quizId, "") == ""
    ensures query == Serialize(OptionalParam("requestId", requestId) + OptionalParam("courseId", courseId)
                               + OptionalParam("quizId", quizId), encode)
    ensures OrText(requestId, "") != "" && OrText(courseId, "") != "" && OrText(quizId, "") != "" ==>
      query == Param("requestId", requestId.value, encode) + "&" + Param("courseId", courseId.value, encode)
               + "&" + Param("quizId", quizId.value, encode)
  {
    var params: seq<(string, string)> := [];
    if requestId.Some? && requestId.value != "" {
      params := params + [("requestId", requestId.value)];
    }
    if courseId.Some? && courseId.value != "" {
      params := params + [("courseId", courseId.value)];
    }
    if quizId.Some? && quizId.value != "" {
      params := params + [("quizId", quizId.value)];
    }
    assert params == OptionalParam("requestId", requestId) + OptionalParam("courseId", courseId)
                     + OptionalParam("quizId", quizId);
    query := Serialize(params, encode);
    if OrText(requestId, "") != "" && OrText(courseId, "") != "" && OrText(quizId, "") != "" {
      SerializeTriple(params, encode);
    }
  }

  lemma SerializeTriple(params: seq<(string, string)>, encode: string -> string)
    requires |params| == 3
    ensures Serialize(params, encode) == Param(params[0].0, params[0].1, encode) + "&"
      + Param(params[1].0, params[1].1, encode) + "&" + Param(params[2].0, params[2].1, encode)
  {
    var p0, p1, p2 := Param(params[0].0, params[0].1, encode), Param(params[1].0, params[1].1, encode),
                      Param(params[2].0, params[2].1, encode);
    var tail, last := params[1..], params[2..];
    assert tail[1..] == last && tail[0] == params[1] && |tail| == 2;
    assert |last| == 1 && last[0] == params[2];
    assert Serialize(last, encode) == p2;
    assert Serialize(tail, encode) == p1 + "&" + p2;
    assert Serialize(params, encode) == p0 + "&" + (p1 + "&" + p2);
    assert p0 + "&" + (p1 + "&" + p2) == p0 + "&" + p1 + "&" + p2;
  }

  /** When every candidate answers 404, the last 404 is what the download throws. */
  lemma AllNotFound(candidates: seq<string>, fetch: string -> Response, decode: string -> Option<string>,
                    parse: string -> int, now: nat)
    requires candidates != []
    requires forall i :: 0 <= i < |candidates| ==> fetch(candidates[i]).status == 404
    ensures var steps := StepsOf(candidates, StepOf(fetch, decode, parse, now));
      FirstWhere(steps, IsStop) == |steps|
      && steps[|steps| - 1].error == ApiError(404, ErrorMessage(fetch(candidates[|candidates| - 1])))
  {
    var steps := StepsOf(candidates, StepOf(fetch, decode, parse, now));
    assert forall i :: 0 <= i < |steps| ==> steps[i].Continue?;
  }
}
