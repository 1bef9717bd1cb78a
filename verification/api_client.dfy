/** The browser's HTTP client (src/services/api.js): the Authorization header,
    how a response becomes a value or a thrown error, and the path of the job
    listing request. `fetch` is replaced by its settled result and `JSON.parse`
    by a parameter that returns None where it would throw. */
module ApiClient {
  import opened Wrappers
  import opened Text

  /** `getAuthHeaders`: the Authorization value, present exactly when a
      non-empty token is stored. */
  function AuthHeader(token: Option<string>): (r: Option<string>)
    ensures r.Some? <==> Truthy(token)
    ensures r.Some? ==> r.value == "Bearer " + token.value
  {
    if Truthy(token) then Some("Bearer " + token.value) else None
  }

  /** A parsed JSON body: the three fields the error path reads (`error`,
      `message`, `details`), each None when missing or not a string, and
      `text`, the body it was parsed from, standing for the rest of the value. */
  datatype Json = Json(error: Option<string>, message: Option<string>, details: Option<string>, text: string)

  /** How `fetch` settled. `ok` is the 2xx check. */
  datatype Fetched =
    | NetworkFailure(reason: string)
    | Response(ok: bool, status: nat, contentType: Option<string>, bodyText: string)

  /** What `request` throws. */
  datatype ApiError =
    | NetworkError(message: string)
    | HttpError(message: string, status: nat, details: Option<string>) // `details` is `json?.details`
    | SyntaxError(text: string) // a non-JSON body on a successful response

  datatype Outcome =
    | Value(json: Json)
    | EmptyObject
    | Thrown(error: ApiError)

  /** The body is parsed only when the content type mentions JSON and the body
      is non-empty; a failed parse is ignored. */
  function ParsedBody(contentType: Option<string>, bodyText: string, parse: string -> Option<Json>): (r: Option<Json>)
    ensures r.Some? ==> Contains(contentType.GetOr(""), "application/json") && bodyText != ""
    ensures Contains(contentType.GetOr(""), "application/json") && bodyText != "" ==> r == parse(bodyText)
  {
    if Contains(contentType.GetOr(""), "application/json") && bodyText != "" then parse(bodyText) else None
  }

  /** `json?.error || json?.message || bodyText || 'Request failed with status N'`. */
  function ErrorMessage(json: Option<Json>, bodyText: string, status: nat): (r: string)
    ensures json.Some? && Truthy(json.value.error) ==> r == json.value.error.value
    ensures !(json.Some? && Truthy(json.value.error)) && json.Some? && Truthy(json.value.message) ==>
              r == json.value.message.value
    ensures !(json.Some? && (Truthy(json.value.error) || Truthy(json.value.message))) && bodyText != "" ==>
              r == bodyText
    ensures !(json.Some? && (Truthy(json.value.error) || Truthy(json.value.message))) && bodyText == "" ==>
              r == "Request failed with status " + NatToString(status)
    ensures r != ""
  {
    if json.Some? && Truthy(json.value.error) then json.value.error.value
    else if json.Some? && Truthy(json.value.message) then json.value.message.value
    else if bodyText != "" then bodyText
    else "Request failed with status " + NatToString(status)
  }

  /** `request`: a network failure is rethrown with a prefix; a non-2xx
      response always throws an error carrying its status; a 2xx response gives
      the parsed JSON, or parses the raw body, or gives an empty object. */
  function Request(f: Fetched, parse: string -> Option<Json>): (r: Outcome)
    ensures f.NetworkFailure? ==> r == Thrown(NetworkError("Network error: " + f.reason))
    ensures f.Response? && !f.ok ==> r.Thrown? && r.error.HttpError? && r.error.status == f.status
    ensures f.Response? && !f.ok ==>
              r.error.message == ErrorMessage(ParsedBody(f.contentType, f.bodyText, parse), f.bodyText, f.status)
    ensures f.Response? && !f.ok ==>
              r.error.details == match ParsedBody(f.contentType, f.bodyText, parse)
                                 case Some(j) => j.details
                                 case None => None
    ensures r.Thrown? && r.error.HttpError? ==> f.Response? && !f.ok
    ensures f.Response? && f.ok && f.bodyText == "" ==> r == EmptyObject
    ensures f.Response? && f.ok && f.bodyText != "" ==>
              r == match parse(f.bodyText)
                   case Some(v) => Value(v)
                   case None => Thrown(SyntaxError(f.bodyText))
  {
    match f
    case NetworkFailure(reason) => Thrown(NetworkError("Network error: " + reason))
    case Response(ok, status, contentType, bodyText) =>
      var json := ParsedBody(contentType, bodyText, parse);
      if !ok then Thrown(HttpError(ErrorMessage(json, bodyText, status), status, if json.Some? then json.value.details else None))
      else if json.Some? then Value(json.value)
      else if bodyText != "" then
        match parse(bodyText)
        case Some(v) => Value(v)
        case None => Thrown(SyntaxError(bodyText))
      else EmptyObject
  }

  /** A JSON error reply from the server is surfaced with exactly the server's
      `error` text and status. */
  lemma ServerErrorSurfaces(status: nat, bodyText: string, err: string, parse: string -> Option<Json>)
    requires bodyText != "" && err != ""
    requires parse(bodyText).Some? && parse(bodyText).value.error == Some(err)
    ensures Request(Response(false, status, Some("application/json; charset=utf-8"), bodyText), parse)
            == Thrown(HttpError(err, status, parse(bodyText).value.details))
  {
    assert OccursAt("application/json; charset=utf-8", "application/json", 0);
  }

  /** `new URLSearchParams(params).toString()`: `key=value` pairs joined by '&';
      `encode` stands for the form-urlencoding of each name and value. */
  function QueryString(params: seq<(string, string)>, encode: string -> string): (qs: string)
    ensures qs == "" <==> |params| == 0
  {
    if |params| == 0 then ""
    else
      var pieces := seq(|params|, k requires 0 <= k < |params| => encode(params[k].0) + "=" + encode(params[k].1));
      JoinNonEmpty(pieces);
      Join(pieces, '&')
  }

  /** A join whose first piece is non-empty is non-empty. */
  lemma JoinNonEmpty(pieces: seq<string>)
    requires |pieces| >= 1 && pieces[0] != ""
    ensures Join(pieces, '&') != ""
  {
  }

  /** `listJobs`: '/jobs', followed by '?' and the query string only when that
      is non-empty. */
  function ListJobsPath(params: seq<(string, string)>, encode: string -> string): (path: string)
    ensures path == "/jobs" <==> |params| == 0
    ensures |params| > 0 ==> path == "/jobs?" + QueryString(params, encode)
  {
    var qs := QueryString(params, encode);
    "/jobs" + (if qs != "" then "?" + qs else "")
  }
}
