/** The `POST` handler of app/api/generate-image/route.ts: prompt and key
    checks, one call to ClipDrop's text-to-image endpoint, the mapping of an
    upstream failure status to a user-facing message, the placeholder image
    offered when the account is out of credits, and the data URL of a
    generated image. */
module ImageRoute {
  import opened Base
  import opened Js
  import opened Http
  import opened Media
  import opened Strings

  /** What the text-to-image call yields: `fetch` rejects, or a response
      with its status, status text and, when the body can be read, its
      blob. */
  datatype Upstream = Unreachable | Response(status: nat, statusText: string, blob: Option<Blob>)

  /** ClipDrop, as seen from the handler: the key and prompt sent decide the
      answer. */
  type ClipDrop = (string, string) -> Upstream

  /** One outbound call, with the `x-api-key` header and the `prompt` form
      field it carries. */
  datatype Call = Call(key: string, prompt: string)

  const PromptRequired: string := "Prompt is required and must be a string"
  const KeyMissing: string := "ClipDrop API key not configured"
  const GenerationFailed: string := "Failed to generate image"

  const NoCredits: string :=
    "На аккаунте ClipDrop " + "закончились кредиты. " + "Проверьте баланс аккаунта."
  const BadKey: string :=
    "Неверный API ключ " + "ClipDrop. Проверьте настройки."
  const RateLimited: string :=
    "Превышен лимит запросов. " + "Попробуйте позже."
  const BadRequest: string :=
    "Неверный запрос " + "к ClipDrop API. " + "Проверьте текст описания."
  const UnavailablePrefix: string :=
    "ClipDrop API " + "недоступен ("

  /** The `switch (response.status)` of the non-ok branch: a fixed message
      for 402, 401, 429 and 400, and otherwise one that names the status and
      its text. */
  function StatusMessage(status: nat, statusText: string): (m: string)
    ensures status == 402 ==> m == NoCredits
    ensures status == 401 ==> m == BadKey
    ensures status == 429 ==> m == RateLimited
    ensures status == 400 ==> m == BadRequest
    ensures status !in {400, 401, 402, 429} ==>
      && |UnavailablePrefix| <= |m|
      && m[..|UnavailablePrefix|] == UnavailablePrefix
      && m[|UnavailablePrefix|..] == DecimalString(status) + Detail(statusText)
  {
    match status
    case 402 => NoCredits
    case 401 => BadKey
    case 429 => RateLimited
    case 400 => BadRequest
    case _ => UnavailablePrefix + (DecimalString(status) + Detail(statusText))
  }

  /** What follows the status in the default message: ` - `, the status
      text and the closing parenthesis. */
  function Detail(statusText: string): (d: string)
    ensures |d| > 0 && d[0] == ' '
  {
    " - " + statusText + ")"
  }

  /** A digit string followed by a non-digit: the digits are determined. */
  lemma DigitsThenSpace(a: string, b: string, x: string, y: string)
    requires forall i :: 0 <= i < |a| ==> IsAsciiDigit(a[i])
    requires forall i :: 0 <= i < |b| ==> IsAsciiDigit(b[i])
    requires |x| > 0 && |y| > 0 && !IsAsciiDigit(x[0]) && !IsAsciiDigit(y[0])
    requires a + x == b + y
    ensures a == b
  {
    if |a| == |b| {
      assert a == (a + x)[..|a|];
      assert b == (b + y)[..|b|];
    } else if |a| < |b| {
      CharAfter(a, x, b, y);
    } else {
      CharAfter(b, y, a, x);
    }
  }

  /** In `a + x == b + y` with `a` shorter, position `|a|` holds both the
      first character of `x` and a character of `b`. */
  lemma CharAfter(a: string, x: string, b: string, y: string)
    ensures |a| < |b| && |x| > 0 && a + x == b + y ==> x[0] == b[|a|]
  {
    if |a| < |b| && |x| > 0 && a + x == b + y {
      assert (a + x)[|a|] == x[0];
      assert (b + y)[|a|] == b[|a|];
    }
  }

  /** Distinct upstream statuses give distinct messages: the message
      identifies the status that caused it. */
  lemma StatusMessageIdentifiesStatus(s1: nat, t1: string, s2: nat, t2: string)
    requires s1 != s2
    ensures StatusMessage(s1, t1) != StatusMessage(s2, t2)
  {
    var fixed := {400, 401, 402, 429};
    FixedMessagesDiffer();
    if s1 !in fixed && s2 !in fixed {
      DefaultMessagesDiffer(s1, t1, s2, t2);
    } else if s1 !in fixed {
      assert StatusMessage(s1, t1)[0] == 'C';
    } else if s2 !in fixed {
      assert StatusMessage(s2, t2)[0] == 'C';
    }
  }

  /** Two statuses without a fixed message give different default
      messages: the decimal status is read back up to the following space. */
  lemma DefaultMessagesDiffer(s1: nat, t1: string, s2: nat, t2: string)
    requires s1 != s2 && s1 !in {400, 401, 402, 429} && s2 !in {400, 401, 402, 429}
    ensures StatusMessage(s1, t1) != StatusMessage(s2, t2)
  {
    var m1, m2 := StatusMessage(s1, t1), StatusMessage(s2, t2);
    if m1 == m2 {
      var d1, d2 := DecimalString(s1), DecimalString(s2);
      assert m1[|UnavailablePrefix|..] == m2[|UnavailablePrefix|..];
      DigitsThenSpace(d1, d2, Detail(t1), Detail(t2));
      DecimalRoundTrip(s1);
      DecimalRoundTrip(s2);
    }
  }

  /** The four fixed messages are pairwise different and none starts like
      the default message. */
  lemma FixedMessagesDiffer()
    ensures NoCredits[0] != 'C' && BadKey[0] != 'C' && RateLimited[0] != 'C' && BadRequest[0] != 'C'
    ensures NoCredits != BadKey && NoCredits != RateLimited && NoCredits != BadRequest
    ensures BadKey != RateLimited && BadKey != BadRequest && RateLimited != BadRequest
  {
    assert NoCredits[1] == 'а' && BadKey[1] == 'е' && BadRequest[1] == 'е';
    assert RateLimited[0] == 'П' && NoCredits[0] == 'Н' && BadKey[0] == 'Н' && BadRequest[0] == 'Н';
    assert BadKey[9] == 'A' && BadRequest[9] == 'з';
  }

  /** The caption of the placeholder: `prompt.substring(0, 40)` followed by
      `...` exactly when the prompt is longer than 40. */
  function Caption(prompt: string): (c: string)
    ensures |prompt| <= 40 ==> c == prompt
    ensures |prompt| > 40 ==> |c| == 43 && c[..40] == prompt[..40] && c[40..] == "..."
  {
    prompt[..Min(40, |prompt|)] + (if |prompt| > 40 then "..." else "")
  }

  /** The markup around the caption, which is fixed text in the source. */
  datatype SvgFrame = SvgFrame(head: string, tail: string)

  const SvgMime: string := "image/svg+xml"

  /** `generateMockImage`: the placeholder SVG, UTF-8 encoded, in a base64
      data URL. */
  function MockImageUrl(prompt: string, frame: SvgFrame, utf8: Utf8Encoder, b64: Base64Encoder): (url: string)
    ensures ParseDataUrl(url) == Some((SvgMime, b64(utf8(frame.head + Caption(prompt) + frame.tail))))
    ensures url[..|DataPrefix + SvgMime + Base64Marker|] == DataPrefix + SvgMime + Base64Marker
  {
    var url := DataUrl(SvgMime, b64(utf8(frame.head + Caption(prompt) + frame.tail)));
    ParseDataUrlRoundTrip(SvgMime, b64(utf8(frame.head + Caption(prompt) + frame.tail)));
    url
  }

  /** The outcome of one request: the response and the outbound calls. */
  datatype Handled = Handled(response: JsonResponse, calls: seq<Call>)

  /** What the handler answers once ClipDrop has been called with `prompt`:
      - a rejected `fetch` or an unreadable body is caught: 500;
      - a non-ok status gives its message; 402 alone is answered 200 with
        `fallback: true` and the placeholder, every other one 500 with only
        the message;
      - an ok status gives `{ success: true, imageUrl }`. */
  function Answer(prompt: string, res: Upstream, frame: SvgFrame, utf8: Utf8Encoder, b64: Base64Encoder)
    : (r: JsonResponse)
    ensures r.status in {200, 500}
    ensures r.body.JsObject?
    ensures res.Unreachable? ==> r == JsonResponse(500, ErrorBody(GenerationFailed))
    ensures res.Response? && !IsOk(res.status) ==>
      && "error" in r.body.fields
      && r.body.fields["error"] == JsString(StatusMessage(res.status, res.statusText))
      && (r.status == 200 <==> res.status == 402)
      && ("fallback" in r.body.fields <==> res.status == 402)
      && (res.status != 402 ==> r.body == ErrorBody(StatusMessage(res.status, res.statusText)))
    ensures res.Response? && res.status == 402 ==>
      && r.body.fields.Keys == {"error", "fallback", "mockImageUrl"}
      && r.body.fields["fallback"] == JsBool(true)
      && r.body.fields["mockImageUrl"] == JsString(MockImageUrl(prompt, frame, utf8, b64))
    ensures res.Response? && IsOk(res.status) && res.blob.None? ==>
      r == JsonResponse(500, ErrorBody(GenerationFailed))
    ensures res.Response? && IsOk(res.status) && res.blob.Some? ==>
      && r.status == 200
      && r.body.fields.Keys == {"success", "imageUrl"}
      && r.body.fields["success"] == JsBool(true)
      && r.body.fields["imageUrl"] == JsString(DataUrl(MimeOrPng(res.blob.value), b64(res.blob.value.bytes)))
  {
    match res
    case Unreachable => JsonResponse(500, ErrorBody(GenerationFailed))
    case Response(status, statusText, blob) =>
      if !IsOk(status) then
        var message := StatusMessage(status, statusText);
        if status == 402 then
          JsonResponse(200, JsObject(map[
            "error" := JsString(message),
            "fallback" := JsBool(true),
            "mockImageUrl" := JsString(MockImageUrl(prompt, frame, utf8, b64))]))
        else JsonResponse(500, ErrorBody(message))
      else
        match blob
        case None => JsonResponse(500, ErrorBody(GenerationFailed))
        case Some(b) =>
          JsonResponse(200, JsObject(map[
            "success" := JsBool(true),
            "imageUrl" := JsString(DataUrl(MimeOrPng(b), b64(b.bytes)))]))
  }

  /** A prompt that passes `!prompt || typeof prompt !== 'string'`. */
  predicate ValidPrompt(prompt: JsValue) {
    prompt.JsString? && prompt.s != ""
  }

  /** `POST /api/generate-image`:
      - 500 when the body does not parse or is `null` (the destructuring
        throws inside the `try`);
      - 400 for a missing, empty or non-string prompt, and 500 for a missing
        or empty key, both without calling ClipDrop;
      - otherwise exactly one call, with the key and the prompt, whose
        result `Answer` turns into the response. */
  function Post(body: Body, keyEnv: Option<string>, clipdrop: ClipDrop, frame: SvgFrame,
                utf8: Utf8Encoder, b64: Base64Encoder): (h: Handled)
    ensures h.response.status in {200, 400, 500}
    ensures h.response.status == 400 <==>
      body.Parsed? && Get(body.value, "prompt").Some? && !ValidPrompt(Get(body.value, "prompt").value)
    ensures h.response.status == 400 ==> h.response.body == ErrorBody(PromptRequired)
    ensures body.Unparsable? || Get(body.value, "prompt").None? ==>
      h == Handled(JsonResponse(500, ErrorBody(GenerationFailed)), [])
    ensures body.Parsed? && Get(body.value, "prompt").Some? && ValidPrompt(Get(body.value, "prompt").value)
            && keyEnv.GetOr("") == "" ==>
      h == Handled(JsonResponse(500, ErrorBody(KeyMissing)), [])
    ensures |h.calls| <= 1
    ensures |h.calls| == 1 <==>
      && body.Parsed? && Get(body.value, "prompt").Some? && ValidPrompt(Get(body.value, "prompt").value)
      && keyEnv.GetOr("") != ""
    ensures |h.calls| == 1 ==>
      && h.calls[0] == Call(keyEnv.value, Get(body.value, "prompt").value.s)
      && h.response == Answer(h.calls[0].prompt, clipdrop(keyEnv.value, h.calls[0].prompt), frame, utf8, b64)
  {
    match body
    case Unparsable => Handled(JsonResponse(500, ErrorBody(GenerationFailed)), [])
    case Parsed(v) =>
      match Get(v, "prompt")
      case None => Handled(JsonResponse(500, ErrorBody(GenerationFailed)), [])
      case Some(prompt) =>
        if !Truthy(prompt) || !prompt.JsString? then
          Handled(JsonResponse(400, ErrorBody(PromptRequired)), [])
        else if keyEnv.GetOr("") == "" then
          Handled(JsonResponse(500, ErrorBody(KeyMissing)), [])
        else
          var key := keyEnv.value;
          Handled(Answer(prompt.s, clipdrop(key, prompt.s), frame, utf8, b64), [Call(key, prompt.s)])
  }

  /** Only an out-of-credits answer from ClipDrop produces the placeholder:
      a response offers `fallback` exactly when ClipDrop was called and
      answered 402. */
  lemma FallbackOnlyFor402(body: Body, keyEnv: Option<string>, clipdrop: ClipDrop, frame: SvgFrame,
                           utf8: Utf8Encoder, b64: Base64Encoder)
    ensures var h := Post(body, keyEnv, clipdrop, frame, utf8, b64);
      h.response.body.JsObject? && "fallback" in h.response.body.fields <==>
        |h.calls| == 1 && clipdrop(h.calls[0].key, h.calls[0].prompt).Response?
        && clipdrop(h.calls[0].key, h.calls[0].prompt).status == 402
  {
    var h := Post(body, keyEnv, clipdrop, frame, utf8, b64);
    if |h.calls| == 0 {
      assert h.response.body.JsObject? ==> h.response.body.fields.Keys == {"error"};
    }
  }
}
