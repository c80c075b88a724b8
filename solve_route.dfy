/**
 * The `/api/solve` proxy route (app/api/solve/route.ts): it reads the
 * request's JSON body, refuses a falsy `formula` with 400, otherwise
 * forwards `{prop: formula}` to the solver and hands back the solver's
 * status and JSON body untouched; any exception on the way becomes a 500.
 */
module SolveRoute {
  import opened Js
  import opened MarinaClient

  /**
   * What `await request.json()` produces: an object; another JSON value
   * (`null` is told apart because destructuring it throws); or a body
   * that is not JSON at all, which makes the call throw.
   */
  datatype RequestBody = ObjectBody(fields: JsonObject) | OtherJson(isNull: bool) | Malformed

  /** A `NextResponse.json(body, {status})`. */
  datatype RouteResponse = RouteResponse(status: nat, body: JsonObject)

  /** The response, and the upstream request the route made, if any. */
  datatype Handled = Handled(response: RouteResponse, upstream: Option<HttpRequest>)

  const FormulaRequired: RouteResponse := RouteResponse(400, map["error" := JString("Formula is required")])
  const InternalError: RouteResponse := RouteResponse(500, map["error" := JString("Internal server error")])

  /** `const { formula } = body`: `None` when destructuring throws, else the field (maybe undefined). */
  function FormulaOf(request: RequestBody): (r: Option<Option<JsonValue>>)
    ensures r.None? <==> request.Malformed? || request == OtherJson(true)
    ensures r.Some? && r.value.Some? ==>
      request.ObjectBody? && "formula" in request.fields && r.value.value == request.fields["formula"]
  {
    match request
    case ObjectBody(fields) => Some(Field(fields, "formula"))
    case OtherJson(isNull) => if isNull then None else Some(None)
    case Malformed => None
  }

  /** The `POST` handler. */
  function Post(request: RequestBody, env: Option<string>, transport: HttpRequest -> FetchOutcome): (h: Handled)
    ensures FormulaOf(request).None? ==> h == Handled(InternalError, None)
    ensures FormulaOf(request).Some? && !JsonTruthy(FormulaOf(request).value) ==> h == Handled(FormulaRequired, None)
    ensures h.upstream.Some? <==> FormulaOf(request).Some? && JsonTruthy(FormulaOf(request).value)
    ensures h.upstream.Some? ==> h.upstream.value == MarinaRequest(BackendUrl(env), FormulaOf(request).value.value)
    ensures h.upstream.Some? ==>
      match transport(h.upstream.value)
      case Received(status, Parsed(data)) => h.response == RouteResponse(status, data)
      case _ => h.response == InternalError
  {
    match FormulaOf(request)
    case None => Handled(InternalError, None)
    case Some(formula) =>
      if !JsonTruthy(formula) then Handled(FormulaRequired, None)
      else
        var upstream := MarinaRequest(BackendUrl(env), formula.value);
        var response :=
          match transport(upstream)
          case Received(status, Parsed(data)) => RouteResponse(status, data)
          case _ => InternalError;
        Handled(response, Some(upstream))
  }

  /**
   * The route adds no text of its own to a failure: every response is the
   * fixed 400, the fixed 500, or exactly what the solver sent, so the
   * message of an exception never reaches the client.
   */
  lemma ResponsesAreFixedOrUpstream(request: RequestBody, env: Option<string>, transport: HttpRequest -> FetchOutcome)
    ensures var h := Post(request, env, transport);
      h.response == FormulaRequired || h.response == InternalError
      || (h.upstream.Some? && transport(h.upstream.value).Received?
          && transport(h.upstream.value).body == Parsed(h.response.body)
          && transport(h.upstream.value).status == h.response.status)
  {
  }

  /**
   * Two failures that differ only in what was thrown (a network error, or
   * a non-JSON body with any message) produce the same response.
   */
  lemma FailureTextIrrelevant(request: RequestBody, env: Option<string>, t1: HttpRequest -> FetchOutcome, t2: HttpRequest -> FetchOutcome)
    requires forall req :: !(t1(req).Received? && t1(req).body.Parsed?)
    requires forall req :: !(t2(req).Received? && t2(req).body.Parsed?)
    ensures Post(request, env, t1).response == Post(request, env, t2).response
  {
  }

  /** A formula of blanks is truthy, so it is forwarded unchanged rather than refused. */
  lemma BlankFormulaForwarded(blanks: string, env: Option<string>, transport: HttpRequest -> FetchOutcome)
    requires blanks != ""
    ensures Post(ObjectBody(map["formula" := JString(blanks)]), env, transport).upstream
      == Some(SolveRequest(BackendUrl(env), blanks))
  {
  }

  /** Error statuses from the solver are passed through, not turned into 500. */
  lemma UpstreamStatusKept(formula: string, env: Option<string>, transport: HttpRequest -> FetchOutcome, data: JsonObject, status: nat)
    requires formula != ""
    requires transport(SolveRequest(BackendUrl(env), formula)) == Received(status, Parsed(data))
    ensures Post(ObjectBody(map["formula" := JString(formula)]), env, transport).response == RouteResponse(status, data)
  {
  }

  /** A body that is not JSON is answered with 500, not 400. */
  lemma MalformedBodyIs500(env: Option<string>, transport: HttpRequest -> FetchOutcome)
    ensures Post(Malformed, env, transport).response.status == 500
    ensures Post(Malformed, env, transport).upstream == None
  {
  }
}
