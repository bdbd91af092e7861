/** `ClipDropService` of services/clipdropService.ts: text-to-image and
    image variations through ClipDrop, with each outcome shaped into
    `{ url }` or `{ error }`, and a missing key reported by throwing. */
module ClipDropService {
  import opened Base
  import opened Http
  import opened Media
  import opened Strings
  import opened Js
  import ImageRoute

  /** A thrown value: an `Error` carries a message, anything else is
      reported as "Unknown error". */
  datatype Thrown = ErrorWithMessage(message: string) | NonError

  /** Reading a response body (`text()`, `blob()`) succeeds or throws. */
  datatype Read<T> = Read(value: T) | ReadFailed(thrown: Thrown)

  /** What one `fetch` yields: a rejection, or a response whose status and
      body readers the service consults. */
  datatype Upstream = Rejected(thrown: Thrown) | Answered(status: nat, text: Read<string>, blob: Read<Blob>)

  datatype Endpoint = TextToImage | Reimagine

  /** One outbound request: the endpoint, the `x-api-key` header and the
      form fields sent. */
  datatype Call = Call(endpoint: Endpoint, key: string, imageFile: Option<Blob>, prompt: Option<string>)

  type ClipDrop = Call -> Upstream

  /** `ClipDropResponse`: the two optional fields. */
  datatype ClipDropResponse = ClipDropResponse(url: Option<string>, error: Option<string>)

  /** A call either throws or resolves to a response. */
  datatype Outcome = Threw(thrown: Thrown) | Returned(response: ClipDropResponse)

  /** The outcome and the requests made. */
  datatype Result = Result(outcome: Outcome, calls: seq<Call>)

  const KeyMissing: string := "ClipDrop API key not configured"
  const ErrorPrefix: string := "ClipDrop API error: "
  const UnknownError: string := "Unknown error"

  /** The service instance holds `CLIPDROP_API_KEY || ''`. */
  datatype Service = Service(apiKey: string)

  function NewService(env: Option<string>): (s: Service)
    ensures env.None? ==> s.apiKey == ""
    ensures env.Some? ==> s.apiKey == env.value
  {
    Service(env.GetOr(""))
  }

  /** The `catch` clause: `error.message` for an `Error`, otherwise
      "Unknown error". */
  function Caught(t: Thrown): (r: ClipDropResponse)
    ensures r.url.None? && r.error.Some?
    ensures t.ErrorWithMessage? ==> r.error.value == t.message
    ensures t.NonError? ==> r.error.value == UnknownError
  {
    ClipDropResponse(None, Some(if t.ErrorWithMessage? then t.message else UnknownError))
  }

  /** `{ url }`. */
  function Success(url: string): (r: ClipDropResponse)
    ensures r.url == Some(url) && r.error.None?
  {
    ClipDropResponse(Some(url), None)
  }

  /** Exactly one of the two fields is set. */
  predicate OneOf(r: ClipDropResponse) {
    r.url.Some? != r.error.Some?
  }

  /** The text in the thrown error of a non-ok response: the body text when
      it can be read and is not empty, else `HTTP <status>`. */
  function NonOkDetail(status: nat, text: Read<string>): (d: string)
    ensures text.Read? && text.value != "" ==> d == text.value
    ensures !(text.Read? && text.value != "") ==> d == "HTTP " + DecimalString(status)
  {
    var fallback := "HTTP " + DecimalString(status);
    match text
    case Read(t) => if t != "" then t else fallback
    case ReadFailed(_) => fallback
  }

  /** `generateImage(prompt)`:
      - an empty key throws before any request (the check is outside the
        `try`);
      - otherwise one request to the text-to-image endpoint, and every
        failure is returned as `{ error }`, never thrown:
        a non-ok status gives `ClipDrop API error: ` and the detail, a
        rejected `fetch` or an unreadable blob gives the thrown message;
      - success gives the data URL of the blob, typed `image/png` when the
        blob has no type. */
  function GenerateImage(svc: Service, prompt: string, clipdrop: ClipDrop, b64: Base64Encoder): (r: Result)
    ensures svc.apiKey == "" <==> r.outcome.Threw?
    ensures svc.apiKey == "" ==> r == Result(Threw(ErrorWithMessage(KeyMissing)), [])
    ensures svc.apiKey != "" ==> r.calls == [Call(TextToImage, svc.apiKey, None, Some(prompt))]
    ensures r.outcome.Returned? ==> OneOf(r.outcome.response)
    ensures svc.apiKey != "" ==>
      var res := clipdrop(Call(TextToImage, svc.apiKey, None, Some(prompt)));
      && (res.Answered? && !IsOk(res.status) ==>
            r.outcome.response.error == Some(ErrorPrefix + NonOkDetail(res.status, res.text)))
      && (res.Answered? && IsOk(res.status) && res.blob.Read? ==>
            r.outcome.response.url == Some(DataUrl(MimeOrPng(res.blob.value), b64(res.blob.value.bytes))))
      && (res.Answered? && IsOk(res.status) && res.blob.ReadFailed? ==>
            r.outcome.response == Caught(res.blob.thrown))
      && (res.Rejected? ==> r.outcome.response == Caught(res.thrown))
  {
    if svc.apiKey == "" then Result(Threw(ErrorWithMessage(KeyMissing)), [])
    else
      var call := Call(TextToImage, svc.apiKey, None, Some(prompt));
      var response :=
        match clipdrop(call)
        case Rejected(t) => Caught(t)
        case Answered(status, text, blob) =>
          if !IsOk(status) then Caught(ErrorWithMessage(ErrorPrefix + NonOkDetail(status, text)))
          else
            match blob
            case ReadFailed(t) => Caught(t)
            case Read(b) => Success(DataUrl(MimeOrPng(b), b64(b.bytes)));
      Result(Returned(response), [call])
  }

  /** `if (prompt)`: the optional prompt is sent only when it is a
      non-empty string. */
  function PromptField(prompt: Option<string>): (f: Option<string>)
    ensures f.Some? <==> prompt.Some? && prompt.value != ""
    ensures f.Some? ==> f == prompt
  {
    if prompt.Some? && prompt.value != "" then prompt else None
  }

  /** `generateImageVariations(imageFile, prompt)`: the same key check; one
      request to the reimagine endpoint with the image and the prompt field
      when the prompt is truthy; a non-ok status gives `ClipDrop API error:
      <status>`; success gives a data URL typed with the blob's own type,
      which has no default here. */
  function GenerateImageVariations(svc: Service, imageFile: Blob, prompt: Option<string>, clipdrop: ClipDrop,
                                   b64: Base64Encoder): (r: Result)
    ensures svc.apiKey == "" <==> r.outcome.Threw?
    ensures svc.apiKey == "" ==> r == Result(Threw(ErrorWithMessage(KeyMissing)), [])
    ensures svc.apiKey != "" ==> r.calls == [Call(Reimagine, svc.apiKey, Some(imageFile), PromptField(prompt))]
    ensures r.outcome.Returned? ==> OneOf(r.outcome.response)
    ensures svc.apiKey != "" ==>
      var res := clipdrop(r.calls[0]);
      && (res.Answered? && !IsOk(res.status) ==>
            r.outcome.response.error == Some(ErrorPrefix + DecimalString(res.status)))
      && (res.Answered? && IsOk(res.status) && res.blob.Read? ==>
            r.outcome.response.url == Some(DataUrl(res.blob.value.mimeType, b64(res.blob.value.bytes))))
      && (res.Answered? && IsOk(res.status) && res.blob.ReadFailed? ==>
            r.outcome.response == Caught(res.blob.thrown))
      && (res.Rejected? ==> r.outcome.response == Caught(res.thrown))
  {
    if svc.apiKey == "" then Result(Threw(ErrorWithMessage(KeyMissing)), [])
    else
      var call := Call(Reimagine, svc.apiKey, Some(imageFile), PromptField(prompt));
      var response :=
        match clipdrop(call)
        case Rejected(t) => Caught(t)
        case Answered(status, _, blob) =>
          if !IsOk(status) then Caught(ErrorWithMessage(ErrorPrefix + DecimalString(status)))
          else
            match blob
            case ReadFailed(t) => Caught(t)
            case Read(b) => Success(DataUrl(b.mimeType, b64(b.bytes)));
      Result(Returned(response), [call])
  }

  /** The status can be read back from the error of a non-ok
      `generateImage` whose body text is empty or unreadable, and from every
      non-ok error of `generateImageVariations`. */
  lemma StatusInError(status: nat)
    ensures var e := ErrorPrefix + DecimalString(status);
      DecimalValue(e[|ErrorPrefix|..]) == status
    ensures var e := ErrorPrefix + "HTTP " + DecimalString(status);
      DecimalValue(e[|ErrorPrefix + "HTTP "|..]) == status
  {
    DecimalRoundTrip(status);
    var d := DecimalString(status);
    assert (ErrorPrefix + d)[|ErrorPrefix|..] == d;
    assert (ErrorPrefix + "HTTP " + d)[|ErrorPrefix + "HTTP "|..] == d;
  }

  /** A successful text-to-image URL reads back as the blob's type (or
      `image/png`) and the base64 of its bytes. */
  lemma GeneratedUrlReadsBack(svc: Service, prompt: string, clipdrop: ClipDrop, b64: Base64Encoder)
    requires svc.apiKey != ""
    requires var res := clipdrop(Call(TextToImage, svc.apiKey, None, Some(prompt)));
      res.Answered? && IsOk(res.status) && res.blob.Read? && ';' !in res.blob.value.mimeType
    ensures var b := clipdrop(Call(TextToImage, svc.apiKey, None, Some(prompt))).blob.value;
      var r := GenerateImage(svc, prompt, clipdrop, b64);
      ParseDataUrl(r.outcome.response.url.value) == Some((MimeOrPng(b), b64(b.bytes)))
  {
    var b := clipdrop(Call(TextToImage, svc.apiKey, None, Some(prompt))).blob.value;
    ParseDataUrlRoundTrip(MimeOrPng(b), b64(b.bytes));
  }

  /** The service and the image route build the same data URL from the
      same successful ClipDrop answer. */
  lemma SameImageAsRoute(svc: Service, prompt: string, clipdrop: ClipDrop, b64: Base64Encoder,
                         statusText: string, frame: ImageRoute.SvgFrame, utf8: Utf8Encoder)
    requires svc.apiKey != ""
    requires var res := clipdrop(Call(TextToImage, svc.apiKey, None, Some(prompt)));
      res.Answered? && IsOk(res.status) && res.blob.Read?
    ensures var res := clipdrop(Call(TextToImage, svc.apiKey, None, Some(prompt)));
      var routed := ImageRoute.Answer(prompt, ImageRoute.Response(res.status, statusText, Some(res.blob.value)), frame, utf8, b64);
      routed.body.fields["imageUrl"] == JsString(GenerateImage(svc, prompt, clipdrop, b64).outcome.response.url.value)
  {
  }
}
