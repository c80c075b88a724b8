/**
 * The browser-side client of the solver service (lib/marinaClient.ts):
 * one POST of `{prop: formula}` to `<base>/marina`, and the folding of
 * whatever comes back (a network failure, a non-2xx status, a body that is
 * not JSON, or a JSON object) into a `SolveResponse`. The network is a
 * parameter: `transport` maps the request sent to the outcome observed.
 */
module MarinaClient {
  import opened Js
  import opened Text

  /** The base URL used when `NEXT_PUBLIC_API_URL` is unset or empty. */
  const DefaultBackendUrl: string := "https://marina-solver-sat-rajharit77.onrender.com"

  /** `process.env.NEXT_PUBLIC_API_URL || DefaultBackendUrl` */
  function BackendUrl(env: Option<string>): (url: string)
    ensures url != ""
    ensures Truthy(env) ==> url == env.value
    ensures !Truthy(env) ==> url == DefaultBackendUrl
  {
    if Truthy(env) then env.value else DefaultBackendUrl
  }

  /** An outgoing HTTP request with a JSON body. */
  datatype HttpRequest = HttpRequest(verb: string, url: string, contentType: string, body: JsonObject)

  /** `fetch(`${base}/marina`, {method: 'POST', headers: {'Content-Type': 'application/json'}, body: {prop}})` */
  function MarinaRequest(base: string, prop: JsonValue): (req: HttpRequest)
    ensures req.verb == "POST" && req.contentType == "application/json"
    ensures req.url == base + "/marina"
    ensures req.body.Keys == {"prop"} && Field(req.body, "prop") == Some(prop)
  {
    HttpRequest("POST", base + "/marina", "application/json", map["prop" := prop])
  }

  /**
   * The request loses nothing: its URL and body determine the base URL
   * and the `prop` value it was built from.
   */
  lemma MarinaRequestInjective(base1: string, prop1: JsonValue, base2: string, prop2: JsonValue)
    requires MarinaRequest(base1, prop1) == MarinaRequest(base2, prop2)
    ensures base1 == base2 && prop1 == prop2
  {
    var u1, u2 := base1 + "/marina", base2 + "/marina";
    assert |base1| == |base2|;
    assert base1 == u1[..|base1|] == u2[..|base2|] == base2;
    assert Field(MarinaRequest(base1, prop1).body, "prop") == Some(prop1);
  }

  /** The request `solveSAT(formula)` sends: the formula travels unmodified. */
  function SolveRequest(base: string, formula: string): HttpRequest
  {
    MarinaRequest(base, JString(formula))
  }

  /** What `response.json()` gives: a parsed object, or the value it rejects with. */
  datatype BodyOutcome = Parsed(obj: JsonObject) | Unparseable(thrown: Thrown)

  /** What one `fetch` gives: a rejection (network failure), or a status and a body. */
  datatype FetchOutcome = Rejected(reason: Thrown) | Received(status: nat, body: BodyOutcome)

  /** `{assignment: string | null, error: string | null}` */
  datatype SolveResponse = SolveResponse(assignment: Option<string>, error: Option<string>)

  /** `response.ok`: the status is in 200-299. */
  predicate Ok(status: nat)
  {
    200 <= status <= 299
  }

  const HttpErrorPrefix: string := "HTTP error! status: "
  const NetworkError: string := "Network error occurred"

  /** The message of the error thrown for a non-2xx status. */
  function HttpErrorText(status: nat): string
  {
    HttpErrorPrefix + DecimalString(status)
  }

  /** The status can be read back from its error text, so distinct statuses give distinct texts. */
  lemma HttpErrorTextRoundTrip(status: nat)
    ensures StartsWith(HttpErrorText(status), HttpErrorPrefix)
    ensures var digits := HttpErrorText(status)[|HttpErrorPrefix|..];
      (forall k :: 0 <= k < |digits| ==> IsDigit(digits[k])) && DigitsValue(digits) == status
  {
    assert HttpErrorText(status)[|HttpErrorPrefix|..] == DecimalString(status);
    DecimalRoundTrip(status);
  }

  /** `data.field`, read as a `string | null`; a value of another JSON type reads as null. */
  function StringField(obj: JsonObject, key: string): (s: Option<string>)
    ensures s.Some? <==> key in obj && obj[key].JString?
    ensures s.Some? ==> obj[key] == JString(s.value)
  {
    match Field(obj, key)
    case Some(JString(v)) => Some(v)
    case _ => None
  }

  /** The `catch` branch: no assignment, and the error's message or the fixed network text. */
  function Failure(t: Thrown): SolveResponse
  {
    SolveResponse(None, Some(MessageOr(t, NetworkError)))
  }

  /** The exchange succeeded: a 2xx status with a JSON object body. */
  predicate Succeeded(outcome: FetchOutcome)
  {
    outcome.Received? && Ok(outcome.status) && outcome.body.Parsed?
  }

  /**
   * The body of `solveSAT` after the `fetch`: a non-2xx status is thrown
   * as an `Error`, and every thrown value is caught.
   */
  function Fold(outcome: FetchOutcome): (r: SolveResponse)
    ensures Succeeded(outcome) ==>
      r == SolveResponse(StringField(outcome.body.obj, "assignment"), StringField(outcome.body.obj, "error"))
    ensures !Succeeded(outcome) ==> r.assignment == None && r.error.Some?
    ensures outcome.Rejected? ==> r.error == Some(MessageOr(outcome.reason, NetworkError))
    ensures outcome.Received? && !Ok(outcome.status) ==> r.error == Some(HttpErrorText(outcome.status))
    ensures outcome.Received? && Ok(outcome.status) && outcome.body.Unparseable? ==>
      r.error == Some(MessageOr(outcome.body.thrown, NetworkError))
  {
    match outcome
    case Rejected(t) => Failure(t)
    case Received(status, body) =>
      if !Ok(status) then Failure(ErrorObject(HttpErrorText(status)))
      else match body
        case Unparseable(t) => Failure(t)
        case Parsed(data) => SolveResponse(StringField(data, "assignment"), StringField(data, "error"))
  }

  /** A `{assignment, error}` answer as the solver service writes it, `null` for an absent value. */
  function JsonOf(s: Option<string>): JsonValue
  {
    match s
    case None => JNull
    case Some(x) => JString(x)
  }

  function ResponseBody(r: SolveResponse): JsonObject
  {
    map["assignment" := JsonOf(r.assignment), "error" := JsonOf(r.error)]
  }

  /** A 2xx answer carrying a `SolveResponse` as JSON is read back as exactly that response. */
  lemma ResponseRoundTrip(status: nat, r: SolveResponse)
    requires Ok(status)
    ensures Fold(Received(status, Parsed(ResponseBody(r)))) == r
  {
    var body := ResponseBody(r);
    assert body["assignment"] == JsonOf(r.assignment) && body["error"] == JsonOf(r.error);
  }

  /**
   * `solveSAT(formula)`: one request, its outcome folded. An assignment
   * comes back only when that one exchange succeeded, and a failed
   * exchange always comes back as an error without an assignment.
   */
  function SolveSAT(formula: string, env: Option<string>, transport: HttpRequest -> FetchOutcome): (r: SolveResponse)
    ensures r.assignment.Some? ==> Succeeded(transport(SolveRequest(BackendUrl(env), formula)))
    ensures !Succeeded(transport(SolveRequest(BackendUrl(env), formula))) ==> r.assignment == None && r.error.Some?
  {
    Fold(transport(SolveRequest(BackendUrl(env), formula)))
  }

  /**
   * Exactly one request is made, to the configured base URL plus
   * `/marina`, carrying the formula unmodified: two networks that answer
   * that one request alike give the same response, whatever they would
   * answer to anything else.
   */
  lemma OneRequest(formula: string, env: Option<string>, t1: HttpRequest -> FetchOutcome, t2: HttpRequest -> FetchOutcome)
    requires t1(SolveRequest(BackendUrl(env), formula)) == t2(SolveRequest(BackendUrl(env), formula))
    ensures SolveSAT(formula, env, t1) == SolveSAT(formula, env, t2)
    ensures SolveRequest(BackendUrl(env), formula).url == BackendUrl(env) + "/marina"
    ensures Field(SolveRequest(BackendUrl(env), formula).body, "prop") == Some(JString(formula))
  {
  }

  /** An assignment is returned only from a 2xx JSON answer carrying it as a string. */
  lemma AssignmentOnlyFromSuccess(outcome: FetchOutcome)
    requires Fold(outcome).assignment.Some?
    ensures Succeeded(outcome)
    ensures Field(outcome.body.obj, "assignment") == Some(JString(Fold(outcome).assignment.value))
  {
  }

  /** A non-2xx status is never mistaken for another one: the error texts differ. */
  lemma DistinctStatusesDistinctErrors(m: nat, n: nat, bm: BodyOutcome, bn: BodyOutcome)
    requires m != n && !Ok(m) && !Ok(n)
    ensures Fold(Received(m, bm)).error != Fold(Received(n, bn)).error
  {
    DecimalInjective(m, n);
    assert HttpErrorText(m)[|HttpErrorPrefix|..] == DecimalString(m);
    assert HttpErrorText(n)[|HttpErrorPrefix|..] == DecimalString(n);
  }
}
