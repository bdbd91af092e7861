/** The `POST` handler of app/api/chat/route.ts: validates the `messages`
    field of the JSON body, converts `{text, isUser}` items into provider
    messages and answers with the reply of the text-reply cascade. */
module ChatRoute {
  import opened Base
  import opened Js
  import opened Http
  import opened AiService
  import Sanitizer

  const InvalidFormat: string := "Invalid messages format"
  const GenerationFailed: string := "Failed to generate response"

  /** `{ role: msg.isUser ? 'user' : 'assistant', content: msg.text }`.
      Reading a property of `null` or `undefined` throws (`None`). */
  function Convert(msg: JsValue): (r: Option<AiMessage>)
    ensures r.None? <==> msg.JsNull? || msg.JsUndefined?
    ensures r.Some? ==> r.value.role != System
    ensures r.Some? ==> (r.value.role == User <==> Truthy(Get(msg, "isUser").value))
    ensures r.Some? ==> Some(r.value.content) == Get(msg, "text")
  {
    match (Get(msg, "isUser"), Get(msg, "text"))
    case (Some(isUser), Some(text)) => Some(AiMessage(if Truthy(isUser) then User else Assistant, text))
    case _ => None
  }

  /** `messages.map(...)`: converts every item in order, and throws if any
      item throws. */
  function ConvertAll(items: seq<JsValue>): (r: Option<seq<AiMessage>>)
    ensures r.Some? <==> forall i :: 0 <= i < |items| ==> Convert(items[i]).Some?
    ensures r.Some? ==> |r.value| == |items|
    ensures r.Some? ==> forall i :: 0 <= i < |items| ==> Convert(items[i]) == Some(r.value[i])
  {
    if |items| == 0 then Some([])
    else
      match (Convert(items[0]), ConvertAll(items[1..]))
      case (Some(m), Some(rest)) =>
        assert forall i :: 1 <= i < |items| ==> items[i] == items[1..][i - 1];
        Some([m] + rest)
      case (None, _) => None
      case (_, None) =>
        assert forall i :: 0 <= i < |items| - 1 ==> items[1..][i] == items[i + 1];
        None
  }

  /** The handler's outcome: the response, every provider request made, and
      the service with its rotation cursor moved on. */
  datatype Handled = Handled(response: JsonResponse, trace: seq<Request>, service: Service)

  /** The value of `messages` when it is an array: `!messages ||
      !Array.isArray(messages)` rejects everything else, and every array is
      truthy. */
  predicate HasMessageArray(body: Body) {
    && body.Parsed?
    && Get(body.value, "messages").Some?
    && Get(body.value, "messages").value.JsArray?
  }

  /** A body that passes validation and whose items all convert. */
  predicate Convertible(body: Body) {
    HasMessageArray(body) && ConvertAll(Get(body.value, "messages").value.items).Some?
  }

  /** The caught-exception response: 500, nothing asked, nothing changed. */
  function Failure(svc: Service): Handled {
    Handled(JsonResponse(500, ErrorBody(GenerationFailed)), [], svc)
  }

  /** `POST /api/chat`:
      - 400 exactly when the body parsed and `messages` is not an array;
      - 500 when the body does not parse, is `null`, or holds a `null` or
        `undefined` item (each throws inside the `try`);
      - otherwise 200 with `{ response }`, the cascade's non-empty reply.
      The cascade is consulted only on the 200 path. */
  function Post(svc: Service, body: Body, oracle: Oracle, punct: Sanitizer.PunctuationClass): (h: Handled)
    requires svc.pool.Valid()
    ensures h.response.status in {200, 400, 500}
    ensures h.response.status == 400 <==> body.Parsed? && Get(body.value, "messages").Some? && !HasMessageArray(body)
    ensures h.response.status == 400 ==> h == Handled(JsonResponse(400, ErrorBody(InvalidFormat)), [], svc)
    ensures h.response.status == 500 ==> h == Failure(svc)
    ensures h.response.status == 200 <==> Convertible(body)
    ensures h.response.status == 200 ==>
      && h.response.body.JsObject?
      && h.response.body.fields.Keys == {"response"}
      && h.response.body.fields["response"].JsString?
      && |h.response.body.fields["response"].s| > 0
    ensures h.service.pool.Valid() && h.service.pool.keys == svc.pool.keys
  {
    match body
    case Unparsable => Failure(svc)
    case Parsed(v) =>
      match Get(v, "messages")
      case None => Failure(svc)
      case Some(messages) =>
        if !Truthy(messages) || !messages.JsArray? then
          Handled(JsonResponse(400, ErrorBody(InvalidFormat)), [], svc)
        else
          match ConvertAll(messages.items)
          case None => Failure(svc)
          case Some(msgs) => Reply(svc, msgs, oracle, punct)
  }

  /** The success branch: `{ response }` with the cascade's reply. */
  function Reply(svc: Service, msgs: seq<AiMessage>, oracle: Oracle, punct: Sanitizer.PunctuationClass): (h: Handled)
    requires svc.pool.Valid()
    ensures var g := GenerateResponse(svc, msgs, oracle, punct);
      && h.response.status == 200
      && h.response.body.JsObject?
      && h.response.body.fields.Keys == {"response"}
      && h.response.body.fields["response"] == JsString(g.reply)
      && |g.reply| > 0
      && h.trace == g.trace && h.service == g.service
    ensures h.service.pool.Valid() && h.service.pool.keys == svc.pool.keys
  {
    var g := GenerateResponse(svc, msgs, oracle, punct);
    Handled(JsonResponse(200, JsObject(map["response" := JsString(g.reply)])), g.trace, g.service)
  }

  /** On the 200 path the handler forwards the converted messages to the
      cascade once and answers with exactly its reply. */
  lemma PostForwards(svc: Service, body: Body, oracle: Oracle, punct: Sanitizer.PunctuationClass)
    requires svc.pool.Valid() && Convertible(body)
    ensures var msgs := ConvertAll(Get(body.value, "messages").value.items).value;
      var g := GenerateResponse(svc, msgs, oracle, punct);
      var h := Post(svc, body, oracle, punct);
      && h.response.body.fields["response"] == JsString(g.reply)
      && h.trace == g.trace
      && h.service == g.service
  {
  }
}
