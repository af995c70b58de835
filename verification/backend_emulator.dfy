/**
 * The backend emulator: the in-progress detector, the per-response decision of
 * `getFullResults`, a polling run over a finite list of replies, and `createSession`.
 * Each HTTP round trip is abstracted into a `Response` value.
 */
module BackendEmulator {
  import opened Wrappers
  import opened Json

  /** The sentinel string that marks a result document as not yet final. */
  const InProgressValue: string := "in_progress"

  const BaseUrl: string := "https://ekyc-core-1019050071398.us-central1.run.app"
  const CreateSessionPath: string := "/sessions/create"
  const FullResultsPath: string := "/async_sdk/full_results"

  /** The JSON key under which the session token arrives (`SessionTokenResponse.CodingKeys`). */
  const SessionTokenKey: string := "x-session-token"

  /** The underlying transport failure URLSession reports. */
  datatype NetworkCause = NetworkCause(description: string)

  /** `BackendError`. */
  datatype BackendError =
    | ApiKeyNotConfigured
    | NoData
    | InvalidJson
    | InvalidUrl
    | Network(cause: NetworkCause)

  /** `BackendError.errorDescription`. */
  function ErrorDescription(e: BackendError): (text: string)
  {
    match e
    case ApiKeyNotConfigured => "API Key is not configured."
    case NoData => "Server returned no data."
    case InvalidJson => "Failed to parse server response."
    case InvalidUrl => "Invalid URL."
    case Network(cause) => "Network error: " + cause.description
  }

  /** Each error carries its own message: no two errors are described alike. */
  lemma ErrorDescriptionInjective(e1: BackendError, e2: BackendError)
    requires ErrorDescription(e1) == ErrorDescription(e2)
    ensures e1 == e2
  {
    var d1 := ErrorDescription(e1);
    var d2 := ErrorDescription(e2);
    assert d1[0] == d2[0];
    if e1.Network? && e2.Network? {
      var prefix := "Network error: ";
      assert d1[|prefix|..] == e1.cause.description;
      assert d2[|prefix|..] == e2.cause.description;
    }
  }

  /** The error JSONSerialization throws for a body that is not JSON. */
  datatype ParseError = ParseError(description: string)

  /** The `Error` a completion handler receives: a `BackendError` or a rethrown parse error. */
  datatype CompletionError = Backend(error: BackendError) | Parse(cause: ParseError)

  /**
   * A response body: a JSON text and the document it holds, or text that is not JSON.
   * A bare scalar at the top level counts as `Parsed` here; `getFullResults` rejects it
   * itself (see `Decide`).
   */
  datatype Body = Parsed(json: Value) | Unparsable(cause: ParseError)

  /**
   * The error JSONSerialization throws, when called without `.fragmentsAllowed`, for a
   * well-formed text whose top level is a bare string, number, boolean or null.
   */
  const FragmentRejected: ParseError :=
    ParseError("JSON text did not start with array or object and option to allow fragments not set.")

  /** What one round trip delivers: the transport error and the body, each possibly nil. */
  datatype Response = Response(error: Option<NetworkCause>, body: Option<Body>)

  datatype Request = Request(verb: string, url: string, headers: map<string, string>)

  /** The session-creation request: a POST carrying the API key. */
  function SessionRequest(apiKey: string): (request: Request)
  {
    Request("POST", BaseUrl + CreateSessionPath,
            map["Content-Type" := "application/json", "x-api-key" := apiKey])
  }

  /** The result-fetch request: a GET carrying the session token. */
  function ResultsRequest(token: string): (request: Request)
  {
    Request("GET", BaseUrl + FullResultsPath,
            map["Content-Type" := "application/json", "x-session-token" := token])
  }

  /**
   * The guards both response handlers start with: a transport error wins over
   * everything, then a missing body; otherwise the body is handed on.
   */
  function Received(reply: Response): (r: Result<Body, CompletionError>)
    ensures r.Success? <==> reply.error.None? && reply.body.Some?
    ensures r.Success? ==> reply.body == Some(r.value)
    ensures reply.error.Some? ==> r == Failure(Backend(Network(reply.error.value)))
    ensures reply.error.None? && reply.body.None? ==> r == Failure(Backend(NoData))
  {
    if reply.error.Some? then Failure(Backend(Network(reply.error.value)))
    else if reply.body.None? then Failure(Backend(NoData))
    else Success(reply.body.value)
  }

  // ---------------------------------------------------------------------------
  // Session creation

  /** `JSONDecoder` reading a `SessionTokenResponse`: an object whose `x-session-token` member is a string. */
  function DecodeSessionToken(v: Value): (r: Option<string>)
    ensures r.Some? ==> v.Object? && SessionTokenKey in v.fields && v.fields[SessionTokenKey] == Str(r.value)
    ensures r.None? ==> !(v.Object? && SessionTokenKey in v.fields && v.fields[SessionTokenKey].Str?)
  {
    if v.Object? && SessionTokenKey in v.fields && v.fields[SessionTokenKey].Str?
    then Some(v.fields[SessionTokenKey].str)
    else None
  }

  /** The smallest document the backend can send for a token. */
  function EncodeSessionToken(token: string): (doc: Value)
  {
    Object(map[SessionTokenKey := Str(token)])
  }

  /** Decoding a token document gives the token back, whatever other members it has. */
  lemma DecodeEncodeSessionToken(token: string, others: map<string, Value>)
    ensures DecodeSessionToken(Object(others + EncodeSessionToken(token).fields)) == Some(token)
  {
  }

  /** What a call did: the requests it issued and what it completed with. */
  datatype Exchange<T> = Exchange(sent: seq<Request>, outcome: Result<T, CompletionError>)

  /**
   * `createSession`. Without an API key it fails before building any request; a URL
   * that does not parse fails likewise. Otherwise it issues one POST carrying the key
   * and completes with the token, or with the transport, empty-body or decoding error.
   * `urlValid` stands for `URL(string:)` accepting the constant endpoint.
   */
  function CreateSession(apiKey: Option<string>, urlValid: bool, reply: Response): (x: Exchange<string>)
    ensures apiKey.None? ==> x == Exchange([], Failure(Backend(ApiKeyNotConfigured)))
    ensures apiKey.Some? && !urlValid ==> x == Exchange([], Failure(Backend(InvalidUrl)))
    ensures x.sent != [] <==> apiKey.Some? && urlValid
    ensures x.sent != [] ==> x.sent == [SessionRequest(apiKey.value)]
    ensures x.outcome.Success? ==>
              && x.sent != [] && reply.error.None? && reply.body.Some? && reply.body.value.Parsed?
              && DecodeSessionToken(reply.body.value.json) == Some(x.outcome.value)
    ensures x.sent != [] && reply.error.Some? ==> x.outcome == Failure(Backend(Network(reply.error.value)))
    ensures x.sent != [] && reply.error.None? && reply.body.None? ==> x.outcome == Failure(Backend(NoData))
    ensures x.sent != [] && reply.error.None? && reply.body.Some? && reply.body.value.Unparsable?
      ==> x.outcome == Failure(Backend(InvalidJson))
    ensures x.sent != [] && reply.error.None? && reply.body.Some? && reply.body.value.Parsed?
      && DecodeSessionToken(reply.body.value.json).None?
      ==> x.outcome == Failure(Backend(InvalidJson))
  {
    if apiKey.None? then Exchange([], Failure(Backend(ApiKeyNotConfigured)))
    else if !urlValid then Exchange([], Failure(Backend(InvalidUrl)))
    else
      var outcome :=
        match Received(reply)
        case Failure(e) => Failure(e)
        case Success(body) =>
          match body
          case Unparsable(_) => Failure(Backend(InvalidJson))
          case Parsed(v) =>
            match DecodeSessionToken(v)
            case Some(token) => Success(token)
            case None => Failure(Backend(InvalidJson));
      Exchange([SessionRequest(apiKey.value)], outcome)
  }

  /** A clean reply carrying a token document completes with exactly that token. */
  lemma CreateSessionReturnsToken(apiKey: string, token: string, others: map<string, Value>)
    ensures CreateSession(Some(apiKey), true, Response(None, Some(Parsed(Object(others + EncodeSessionToken(token).fields)))))
         == Exchange([SessionRequest(apiKey)], Success(token))
  {
    DecodeEncodeSessionToken(token, others);
  }

  // ---------------------------------------------------------------------------
  // The in-progress detector

  /** `containsInProgressStatus`: the sentinel string is the value itself or inside some member or element. */
  predicate ContainsInProgress(v: Value)
    decreases v
  {
    match v
    case Str(s) => s == InProgressValue
    case Object(m) => exists k :: k in m && ContainsInProgress(m[k])
    case Array(a) => exists i :: 0 <= i < |a| && ContainsInProgress(a[i])
    case _ => false
  }

  /**
   * `containsInProgressStatus` as the source runs it: a string is compared, members
   * and elements are visited one at a time (members in no particular order), and the
   * first hit returns at once.
   */
  method ContainsInProgressStatus(v: Value) returns (found: bool)
    ensures found == ContainsInProgress(v)
    ensures v.Null? || v.Bool? || v.Number? ==> !found
    decreases v
  {
    if v.Str? {
      return v.str == InProgressValue;
    }
    if v.Object? {
      var pending := v.fields.Keys;
      while pending != {}
        invariant pending <= v.fields.Keys
        invariant forall k :: k in v.fields && k !in pending ==> !ContainsInProgress(v.fields[k])
        decreases pending
      {
        var k :| k in pending;
        var hit := ContainsInProgressStatus(v.fields[k]);
        if hit {
          return true;
        }
        pending := pending - {k};
      }
    }
    if v.Array? {
      var i := 0;
      while i < |v.items|
        invariant 0 <= i <= |v.items|
        invariant forall j :: 0 <= j < i ==> !ContainsInProgress(v.items[j])
      {
        var hit := ContainsInProgressStatus(v.items[i]);
        if hit {
          return true;
        }
        i := i + 1;
      }
    }
    return false;
  }

  /** Where the detector fires, some path through members and elements leads to the sentinel. */
  lemma {:induction false} InProgressPath(v: Value) returns (path: seq<Selector>)
    requires ContainsInProgress(v)
    ensures At(v, path) == Some(Str(InProgressValue))
    decreases v
  {
    if v.Str? {
      path := [];
    } else if v.Object? {
      var k :| k in v.fields && ContainsInProgress(v.fields[k]);
      var rest := InProgressPath(v.fields[k]);
      path := [Key(k)] + rest;
      assert path[1..] == rest;
    } else {
      assert v.Array?;
      var i :| 0 <= i < |v.items| && ContainsInProgress(v.items[i]);
      var rest := InProgressPath(v.items[i]);
      path := [Index(i)] + rest;
      assert path[1..] == rest;
    }
  }

  /** A sentinel reachable by any path makes the detector fire. */
  lemma {:induction false} PathInProgress(v: Value, path: seq<Selector>)
    requires At(v, path) == Some(Str(InProgressValue))
    ensures ContainsInProgress(v)
    decreases |path|
  {
    if path != [] {
      match path[0]
      case Key(k) =>
        PathInProgress(v.fields[k], path[1..]);
      case Index(i) =>
        PathInProgress(v.items[i], path[1..]);
    }
  }

  /** The detector fires exactly when the sentinel string sits somewhere in the document. */
  lemma ContainsInProgressIffReachable(v: Value)
    ensures ContainsInProgress(v) <==> exists path :: At(v, path) == Some(Str(InProgressValue))
  {
    if ContainsInProgress(v) {
      var path := InProgressPath(v);
    }
    forall path | At(v, path) == Some(Str(InProgressValue))
      ensures ContainsInProgress(v)
    {
      PathInProgress(v, path);
    }
  }

  /** Keys are never inspected: objects with the same member values get the same verdict. */
  lemma KeysNotInspected(m1: map<string, Value>, m2: map<string, Value>)
    requires m1.Values == m2.Values
    ensures ContainsInProgress(Object(m1)) == ContainsInProgress(Object(m2))
  {
    if ContainsInProgress(Object(m1)) {
      var k :| k in m1 && ContainsInProgress(m1[k]);
      assert m1[k] in m2.Values;
      var k2 :| k2 in m2 && m2[k2] == m1[k];
    }
    if ContainsInProgress(Object(m2)) {
      var k :| k in m2 && ContainsInProgress(m2[k]);
      assert m2[k] in m1.Values;
      var k1 :| k1 in m1 && m1[k1] == m2[k];
    }
  }

  /** `{"a": {"b": ["x", "in_progress"]}}` is in progress; `{"a": {"b": ["x", "y"]}}` is not. */
  lemma DetectorExamples()
    ensures ContainsInProgress(Object(map["a" := Object(map["b" := Array([Str("x"), Str("in_progress")])])]))
    ensures !ContainsInProgress(Object(map["a" := Object(map["b" := Array([Str("x"), Str("y")])])]))
    ensures !ContainsInProgress(Object(map["in_progress" := Null]))
  {
    var hit := Array([Str("x"), Str("in_progress")]);
    assert ContainsInProgress(hit.items[1]);
    var hitInner := map["b" := hit];
    assert ContainsInProgress(Object(hitInner)) by {
      assert hitInner["b"] == hit;
    }
    var hitOuter := map["a" := Object(hitInner)];
    assert hitOuter["a"] == Object(hitInner);
    var miss := Array([Str("x"), Str("y")]);
    assert "x" != InProgressValue && "y" != InProgressValue;
    assert !ContainsInProgress(miss) by {
      assert forall i :: 0 <= i < |miss.items| ==> !ContainsInProgress(miss.items[i]);
    }
    var inner := map["b" := miss];
    assert !ContainsInProgress(Object(inner)) by {
      assert forall k :: k in inner ==> inner[k] == miss;
    }
    var outer := map["a" := Object(inner)];
    assert forall k :: k in outer ==> outer[k] == Object(inner);
    var keyOnly := map["in_progress" := Null];
    assert forall k :: k in keyOnly ==> keyOnly[k] == Null;
  }

  // ---------------------------------------------------------------------------
  // Fetching the full results

  /** What one fetch leads to: another attempt with the token, or completion. */
  datatype Step = Retry(token: string) | Complete(result: Result<map<string, Value>, CompletionError>)

  /**
   * The decision `getFullResults` takes on one reply: transport error, missing body
   * and parse error complete with that error, and so does a top-level scalar, which
   * JSONSerialization refuses as a fragment; a document the detector flags is retried
   * with the same token; a final object completes with it unchanged, and a final
   * array with `invalidJson`.
   */
  function Decide(token: string, reply: Response): (s: Step)
    ensures s.Retry? ==> s.token == token
    ensures s.Retry? <==>
              (reply.error.None? && reply.body.Some? && reply.body.value.Parsed?
               && IsContainer(reply.body.value.json) && ContainsInProgress(reply.body.value.json))
    ensures s.Complete? && s.result.Success? ==>
      reply.error.None? && reply.body == Some(Parsed(Object(s.result.value)))
      && !ContainsInProgress(Object(s.result.value))
    ensures reply.error.Some? ==> s == Complete(Failure(Backend(Network(reply.error.value))))
    ensures reply.error.None? && reply.body.None? ==> s == Complete(Failure(Backend(NoData)))
    ensures reply.error.None? && reply.body.Some? && reply.body.value.Unparsable?
      ==> s == Complete(Failure(Parse(reply.body.value.cause)))
    ensures reply.error.None? && reply.body.Some? && reply.body.value.Parsed?
      && !IsContainer(reply.body.value.json)
      ==> s == Complete(Failure(Parse(FragmentRejected)))
    ensures reply.error.None? && reply.body.Some? && reply.body.value.Parsed?
      && !ContainsInProgress(reply.body.value.json) && reply.body.value.json.Object?
      ==> s == Complete(Success(reply.body.value.json.fields))
    ensures reply.error.None? && reply.body.Some? && reply.body.value.Parsed?
      && !ContainsInProgress(reply.body.value.json) && reply.body.value.json.Array?
      ==> s == Complete(Failure(Backend(InvalidJson)))
  {
    match Received(reply)
    case Failure(e) => Complete(Failure(e))
    case Success(body) =>
      match body
      case Unparsable(cause) => Complete(Failure(Parse(cause)))
      case Parsed(v) =>
        if !IsContainer(v) then Complete(Failure(Parse(FragmentRejected)))
        else if ContainsInProgress(v) then Retry(token)
        else if v.Object? then Complete(Success(v.fields))
        else Complete(Failure(Backend(InvalidJson)))
  }

  /**
   * A polling run: the requests issued and the outcome, absent when the replies ran
   * out while the results were still in progress.
   */
  datatype Run = Run(sent: seq<Request>, outcome: Option<Result<map<string, Value>, CompletionError>>)

  /**
   * `getFullResults` against the finite list of replies the backend gives to its
   * successive requests; each in-progress reply is followed by a new request.
   */
  function Poll(token: string, urlValid: bool, replies: seq<Response>): (run: Run)
    ensures forall j :: 0 <= j < |run.sent| ==> run.sent[j] == ResultsRequest(token)
    ensures |run.sent| <= |replies|
    ensures !urlValid ==> run == Run([], Some(Failure(Backend(InvalidUrl))))
    ensures run.outcome.None? ==>
      urlValid && |run.sent| == |replies| && forall j :: 0 <= j < |replies| ==> Decide(token, replies[j]).Retry?
    ensures urlValid && (forall j :: 0 <= j < |replies| ==> Decide(token, replies[j]).Retry?) ==> run.outcome.None?
    decreases |replies|
  {
    if !urlValid then Run([], Some(Failure(Backend(InvalidUrl))))
    else if replies == [] then Run([], None)
    else
      match Decide(token, replies[0])
      case Retry(next) =>
        var rest := Poll(next, urlValid, replies[1..]);
        Run([ResultsRequest(token)] + rest.sent, rest.outcome)
      case Complete(result) => Run([ResultsRequest(token)], Some(result))
  }

  /**
   * A run stops at the first reply that does not ask for a retry: it has issued one
   * request per reply up to and including that one, all with the same token, and
   * completes as that reply decides.
   */
  lemma {:induction false} PollStopsAtFirstFinal(token: string, replies: seq<Response>, n: nat)
    requires n < |replies|
    requires forall j :: 0 <= j < n ==> Decide(token, replies[j]).Retry?
    requires Decide(token, replies[n]).Complete?
    ensures Poll(token, true, replies)
         == Run(seq(n + 1, _ => ResultsRequest(token)), Some(Decide(token, replies[n]).result))
    decreases n
  {
    if n == 0 {
      assert seq(1, _ => ResultsRequest(token)) == [ResultsRequest(token)];
    } else {
      assert Decide(token, replies[0]).Retry?;
      forall j | 0 <= j < n - 1
        ensures Decide(token, replies[1..][j]).Retry?
      {
        assert replies[1..][j] == replies[j + 1];
      }
      assert replies[1..][n - 1] == replies[n];
      PollStopsAtFirstFinal(token, replies[1..], n - 1);
      assert [ResultsRequest(token)] + seq(n, _ => ResultsRequest(token)) == seq(n + 1, _ => ResultsRequest(token));
    }
  }

  /** Two in-progress replies and then a final object: three requests, success with that object. */
  lemma PollExample(token: string, pending: map<string, Value>, final: map<string, Value>)
    requires ContainsInProgress(Object(pending))
    requires !ContainsInProgress(Object(final))
    ensures var replies := [Response(None, Some(Parsed(Object(pending)))),
                            Response(None, Some(Parsed(Object(pending)))),
                            Response(None, Some(Parsed(Object(final))))];
      Poll(token, true, replies)
        == Run([ResultsRequest(token), ResultsRequest(token), ResultsRequest(token)], Some(Success(final)))
  {
    var replies := [Response(None, Some(Parsed(Object(pending)))),
                    Response(None, Some(Parsed(Object(pending)))),
                    Response(None, Some(Parsed(Object(final))))];
    PollStopsAtFirstFinal(token, replies, 2);
    assert seq(3, _ => ResultsRequest(token)) == [ResultsRequest(token), ResultsRequest(token), ResultsRequest(token)];
  }

  /** A final top-level array completes with `invalidJson` at once. */
  lemma FinalArrayIsInvalid(token: string, items: seq<Value>, later: seq<Response>)
    requires !ContainsInProgress(Array(items))
    ensures Poll(token, true, [Response(None, Some(Parsed(Array(items))))] + later)
         == Run([ResultsRequest(token)], Some(Failure(Backend(InvalidJson))))
  {
  }

  /**
   * A bare `"in_progress"` string as the whole body is a fragment, not a pending
   * document: the run ends at once with the parse error instead of retrying.
   */
  lemma BareSentinelIsNotRetried(token: string, later: seq<Response>)
    ensures Poll(token, true, [Response(None, Some(Parsed(Str(InProgressValue))))] + later)
         == Run([ResultsRequest(token)], Some(Failure(Parse(FragmentRejected))))
  {
  }
}
