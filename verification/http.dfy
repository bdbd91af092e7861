/** The request and response shapes shared by the two API routes. */
module Http {
  import opened Js

  /** What `request.json()` yields: a parse failure or a JSON value. */
  datatype Body = Unparsable | Parsed(value: JsValue)

  /** A `NextResponse.json` result: the HTTP status and the JSON body. */
  datatype JsonResponse = JsonResponse(status: nat, body: JsValue)

  /** `{ error: message }`. */
  function ErrorBody(message: string): (v: JsValue)
    ensures v.JsObject? && v.fields.Keys == {"error"} && v.fields["error"] == JsString(message)
  {
    JsObject(map["error" := JsString(message)])
  }

  /** `response.ok`: a status in the range 200-299. */
  predicate IsOk(status: nat) {
    200 <= status < 300
  }
}
