/** The response shaping of `src/lib/api-response.ts`. A response is an HTTP
    status and a JSON body; optional arguments are `Option`s, `None` standing
    for an argument left `undefined`, so that JavaScript's defaults apply. */
module ApiResponse {
  import opened Common

  datatype Response = Response(status: int, body: Json)

  /** An error body: `{error: message}` plus `details` exactly when they are truthy. */
  predicate IsErrorBody(body: Json, message: string, details: Option<Json>)
  {
    && body.JObj?
    && body.fields.Keys <= {"error", "details"}
    && "error" in body.fields && body.fields["error"] == JStr(message)
    && ("details" in body.fields <==> details.Some? && Truthy(details.value))
    && ("details" in body.fields ==> body.fields["details"] == details.value)
  }

  /** `apiError`: the body always carries the message; `details` is added only
      when it is truthy; the status defaults to 500. */
  function ApiError(message: string, status: Option<int>, details: Option<Json>): (r: Response)
    ensures r.status == (if status.Some? then status.value else 500)
    ensures IsErrorBody(r.body, message, details)
  {
    var body := map["error" := JStr(message)];
    var body := if details.Some? && Truthy(details.value) then body["details" := details.value] else body;
    Response(if status.Some? then status.value else 500, JObj(body))
  }

  /** `apiSuccess`: `success` is always true; `data` is present unless it is
      `undefined` (so a `null` is kept), `message` only when truthy; the status
      defaults to 200. */
  function ApiSuccess(data: Option<Json>, message: Option<string>, status: Option<int>): (r: Response)
    ensures r.status == (if status.Some? then status.value else 200)
    ensures r.body.JObj? && "success" in r.body.fields && r.body.fields["success"] == JBool(true)
    ensures "data" in r.body.fields <==> data.Some?
    ensures data.Some? ==> r.body.fields["data"] == data.value
    ensures "message" in r.body.fields <==> Present(message)
    ensures Present(message) ==> r.body.fields["message"] == JStr(message.value)
    ensures r.body.fields.Keys <= {"success", "data", "message"}
  {
    var body := map["success" := JBool(true)];
    var body := if data.Some? then body["data" := data.value] else body;
    var body := if Present(message) then body["message" := JStr(message.value)] else body;
    Response(if status.Some? then status.value else 200, JObj(body))
  }

  /** The message a `commonErrors` helper uses: the caller's, or its default
      when the caller passed none. */
  function MessageOr(message: Option<string>, default: string): string
  {
    if message.Some? then message.value else default
  }

  // The `commonErrors` table: a fixed status and a default message each.

  function BadRequest(message: Option<string>, details: Option<Json>): (r: Response)
    ensures IsErrorBody(r.body, MessageOr(message, "Bad request"), details)
    ensures r.status == 400
  {
    ApiError(MessageOr(message, "Bad request"), Some(400), details)
  }

  function Unauthorized(message: Option<string>): (r: Response)
    ensures IsErrorBody(r.body, MessageOr(message, "Unauthorized"), None)
    ensures r.status == 401
  {
    ApiError(MessageOr(message, "Unauthorized"), Some(401), None)
  }

  function NotFound(message: Option<string>): (r: Response)
    ensures IsErrorBody(r.body, MessageOr(message, "Resource not found"), None)
    ensures r.status == 404
  {
    ApiError(MessageOr(message, "Resource not found"), Some(404), None)
  }

  function RateLimit(message: Option<string>): (r: Response)
    ensures IsErrorBody(r.body, MessageOr(message, "Rate limit exceeded"), None)
    ensures r.status == 429
  {
    ApiError(MessageOr(message, "Rate limit exceeded"), Some(429), None)
  }

  function ServerError(message: Option<string>, details: Option<Json>): (r: Response)
    ensures IsErrorBody(r.body, MessageOr(message, "Internal server error"), details)
    ensures r.status == 500
  {
    ApiError(MessageOr(message, "Internal server error"), Some(500), details)
  }

  /** Unlike the others, `validationError` has no default message. */
  function ValidationError(message: string, details: Option<Json>): (r: Response)
    ensures IsErrorBody(r.body, message, details)
    ensures r.status == 400
  {
    ApiError(message, Some(400), details)
  }

  /** Every error body is `{error}` or `{error, details}`, and never a success body. */
  lemma ErrorIsNotSuccess(message: string, status: Option<int>, details: Option<Json>)
    ensures "success" !in ApiError(message, status, details).body.fields
  {
  }

  /** The defaults: an omitted message gives each helper its own text. */
  lemma DefaultMessages()
    ensures RateLimit(None).body.fields["error"] == JStr("Rate limit exceeded")
    ensures NotFound(None).body.fields["error"] == JStr("Resource not found")
    ensures BadRequest(None, None).body.fields["error"] == JStr("Bad request")
    ensures Unauthorized(None).body.fields["error"] == JStr("Unauthorized")
    ensures ServerError(None, None).body.fields["error"] == JStr("Internal server error")
  {
  }

  /** Falsy details are dropped: an empty string or zero adds no `details` key,
      while an empty array (truthy in JavaScript) is kept. */
  lemma FalsyDetailsDropped(message: string)
    ensures ApiError(message, None, Some(JStr(""))).body == JObj(map["error" := JStr(message)])
    ensures ApiError(message, None, Some(JNum(0.0))).body == JObj(map["error" := JStr(message)])
    ensures "details" in ApiError(message, None, Some(JArr([]))).body.fields
  {
  }
}
