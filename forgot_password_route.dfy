/**
 * The forgot-password proxy route: it forwards the request body to the backend and maps every
 * outcome to an HTTP status and a JSON body. JSON values are of an arbitrary type `J` with the
 * parser passed in; the 15 s abort is one way the backend request can fail.
 */
module ForgotPasswordRoute {
  import opened Wrappers
  import opened JsStrings

  const BACKEND_PATH := "/api/auth/forgot-password"

  /** The backend's answer: its status and raw text, or a failed request with the error's message. */
  datatype Backend = Replied(status: int, text: string) | Unreachable(message: Option<string>)

  /** `res.ok`: a status in the range 200-299. */
  predicate IsOk(status: int) {
    200 <= status <= 299
  }

  /** A response body: `{ error }` made up by the route, or a JSON value passed through. */
  datatype Body<J> = ErrorBody(error: string) | Data(value: J)

  datatype RouteResponse<J> = RouteResponse(status: int, body: Body<J>)

  /**
   * Statuses `NextResponse.json` refuses: outside 200-599 it throws a RangeError, and for a
   * null-body status (204, 205, 304) a TypeError, since a JSON body is always given.
   */
  predicate JsonResponseThrows(status: int) {
    status < 200 || status > 599 || status == 204 || status == 205 || status == 304
  }

  /** The prefix of the 502 answer of the route's outer `catch`. */
  const UNREACHABLE_PREFIX := "Could not reach backend: "

  /**
   * `NextResponse.json(body, { status })` inside the route's outer `try`: a status it refuses
   * throws, and the `catch` answers 502 with the thrown error's message.
   */
  function Respond<J>(status: int, body: Body<J>, thrownMessage: string): (r: RouteResponse<J>)
    ensures !JsonResponseThrows(status) ==> r == RouteResponse(status, body)
    ensures JsonResponseThrows(status) ==> r == RouteResponse(502, ErrorBody(UNREACHABLE_PREFIX + thrownMessage))
  {
    if JsonResponseThrows(status) then RouteResponse(502, ErrorBody(UNREACHABLE_PREFIX + thrownMessage))
    else RouteResponse(status, body)
  }

  /** The backend URL: the API URL with one trailing '/' dropped, then the route's own path. */
  function BackendUrl(api: string): (r: string)
    ensures api != [] && api[|api| - 1] == '/' ==> r == api[..|api| - 1] + BACKEND_PATH
    ensures !(api != [] && api[|api| - 1] == '/') ==> r == api + BACKEND_PATH
  {
    DropTrailingSlash(api) + BACKEND_PATH
  }

  /**
   * The reply once the backend answered: empty text is `{}`, unparseable text an error, JSON
   * passes through; a status `NextResponse.json` refuses turns into the 502 of the outer `catch`,
   * whose message (`thrownMessage`) the runtime chooses.
   */
  function BackendReply<J>(status: int, text: string, parse: string -> Option<J>, emptyObject: J,
                           thrownMessage: string): (r: RouteResponse<J>)
    ensures text == "" && !JsonResponseThrows(status) ==> r == RouteResponse(status, Data(emptyObject))
    ensures text != "" && parse(text).Some? && !JsonResponseThrows(status) ==>
      r == RouteResponse(status, Data(parse(text).value))
    ensures text != "" && parse(text).None? && IsOk(status) ==>
      r == RouteResponse(502, ErrorBody("Invalid response from backend."))
    ensures text != "" && parse(text).None? && !IsOk(status) && !JsonResponseThrows(status) ==>
      r == RouteResponse(status, ErrorBody("Backend returned " + IntToString(status)))
    ensures JsonResponseThrows(status) && !(text != "" && parse(text).None? && IsOk(status)) ==>
      r == RouteResponse(502, ErrorBody(UNREACHABLE_PREFIX + thrownMessage))
  {
    if text == "" then Respond(status, Data(emptyObject), thrownMessage)
    else match parse(text)
      case Some(data) => Respond(status, Data(data), thrownMessage)
      case None =>
        if IsOk(status) then Respond(502, ErrorBody("Invalid response from backend."), thrownMessage)
        else Respond(status, ErrorBody("Backend returned " + IntToString(status)), thrownMessage)
  }

  /**
   * POST: no API URL gives 500, an unparseable request body 400, an unreachable backend 502
   * with the reason; otherwise the backend's reply. The second result is the forwarded request
   * (URL and body) when one is made.
   */
  function Post<J>(apiEnv: Option<string>, requestBody: Option<J>, backend: Backend,
                   parse: string -> Option<J>, emptyObject: J, thrownMessage: string): (r: (RouteResponse<J>, Option<(string, J)>))
    ensures !Truthy(apiEnv) ==> r.0 == RouteResponse(500, ErrorBody("Server URL is not configured")) && r.1.None?
    ensures Truthy(apiEnv) && requestBody.None? ==> r.0 == RouteResponse(400, ErrorBody("Invalid request body")) && r.1.None?
    ensures Truthy(apiEnv) && requestBody.Some? ==> r.1 == Some((BackendUrl(apiEnv.value), requestBody.value))
    ensures Truthy(apiEnv) && requestBody.Some? && backend.Unreachable? ==>
      r.0.status == 502 && r.0.body.ErrorBody? && IsPrefixOf(UNREACHABLE_PREFIX, r.0.body.error)
      && (backend.message.Some? ==> r.0.body.error == UNREACHABLE_PREFIX + backend.message.value)
    ensures Truthy(apiEnv) && requestBody.Some? && backend.Replied? ==>
      r.0 == BackendReply(backend.status, backend.text, parse, emptyObject, thrownMessage)
  {
    var api := OrElse(apiEnv, "");
    if api == "" then (RouteResponse(500, ErrorBody("Server URL is not configured")), None)
    else if requestBody.None? then (RouteResponse(400, ErrorBody("Invalid request body")), None)
    else
      var forwarded := Some((BackendUrl(api), requestBody.value));
      match backend
      case Unreachable(message) =>
        var reason := if message.Some? then message.value else "Backend unreachable";
        (RouteResponse(502, ErrorBody(UNREACHABLE_PREFIX + reason)), forwarded)
      case Replied(status, text) => (BackendReply(status, text, parse, emptyObject, thrownMessage), forwarded)
  }

  /** Every answer of the route carries 500, 400, 502 or the backend's own status. */
  lemma PostStatuses<J>(apiEnv: Option<string>, requestBody: Option<J>, backend: Backend,
                        parse: string -> Option<J>, emptyObject: J, thrownMessage: string)
    ensures var s := Post(apiEnv, requestBody, backend, parse, emptyObject, thrownMessage).0.status;
      s == 500 || s == 400 || s == 502 || (backend.Replied? && s == backend.status)
  {
  }

  /** The route makes up an error body only for the failures it names; a backend OK with JSON is passed on as it is. */
  lemma PostPassesOkJson<J>(api: string, requestBody: J, status: int, text: string,
                            parse: string -> Option<J>, emptyObject: J, thrownMessage: string)
    requires api != "" && IsOk(status) && status != 204 && status != 205 && text != "" && parse(text).Some?
    ensures Post(Some(api), Some(requestBody), Replied(status, text), parse, emptyObject, thrownMessage).0
      == RouteResponse(status, Data(parse(text).value))
  {
  }

  /**
   * A backend answer with a null-body status never reaches the client with that status: the
   * client gets 502, with the thrown error's message, or with the invalid-response error when
   * a 204 or 205 came with text that is not JSON.
   */
  lemma NullBodyStatusBecomes502<J>(api: string, requestBody: J, status: int, text: string,
                                    parse: string -> Option<J>, emptyObject: J, thrownMessage: string)
    requires api != "" && (status == 204 || status == 205 || status == 304)
    ensures var r := Post(Some(api), Some(requestBody), Replied(status, text), parse, emptyObject, thrownMessage).0;
      r.status == 502
      && r.body == ErrorBody(if text != "" && parse(text).None? && status != 304 then "Invalid response from backend."
                             else UNREACHABLE_PREFIX + thrownMessage)
  {
  }
}
