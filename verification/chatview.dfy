/** The submit cycle of components/Chat.tsx: the transcript, the input box
    and the loading flag, changed when the form is submitted and again when
    the request to `/api/chat` settles. */
module ChatView {
  import opened Base
  import opened Js
  import opened Http
  import opened Strings
  import opened AiService
  import ChatRoute
  import Sanitizer

  /** One transcript entry. The user's entries hold strings; an answer holds
      whatever value the server put under `response`. */
  datatype Message = Message(text: JsValue, isUser: bool)

  datatype ChatState = ChatState(messages: seq<Message>, input: string, loading: bool)

  /** How the request settles: `fetch` rejects, or a response arrives with
      a status and a body that `response.json()` reads. */
  datatype Outcome = NetworkError | Replied(status: nat, body: Body)

  /** The entry shown when anything goes wrong. */
  const ErrorText: string :=
    "Извините, произошла ошибка " + "при получении ответа. " + "Попробуйте еще раз."

  /** `{ text, isUser }` as sent in the request body. */
  function Encode(m: Message): (v: JsValue)
    ensures v.JsObject? && Get(v, "text") == Some(m.text) && Get(v, "isUser") == Some(JsBool(m.isUser))
  {
    JsObject(map["text" := m.text, "isUser" := JsBool(m.isUser)])
  }

  function EncodeAll(ms: seq<Message>): (items: seq<JsValue>)
    ensures |items| == |ms|
    ensures forall i :: 0 <= i < |ms| ==> items[i] == Encode(ms[i])
  {
    if |ms| == 0 then [] else [Encode(ms[0])] + EncodeAll(ms[1..])
  }

  /** `{ messages: newMessages }`. */
  function RequestBody(ms: seq<Message>): (v: JsValue)
    ensures Get(v, "messages") == Some(JsArray(EncodeAll(ms)))
  {
    JsObject(map["messages" := JsArray(EncodeAll(ms))])
  }

  /** The part of `handleSubmit` before the request: nothing happens when the
      trimmed input is empty or a request is in flight; otherwise the trimmed
      text is appended as a user entry, the input is cleared, loading starts,
      and the request body carries the new transcript. */
  function Submit(s: ChatState): (r: (ChatState, Option<JsValue>))
    ensures r.1.None? <==> AllSpace(s.input) || s.loading
    ensures r.1.None? ==> r.0 == s
    ensures r.1.Some? ==>
      && r.0.messages == s.messages + [Message(JsString(Trim(s.input)), true)]
      && Truthy(r.0.messages[|s.messages|].text)
      && r.0.input == ""
      && r.0.loading
      && r.1.value == RequestBody(r.0.messages)
  {
    TrimEmptyIff(s.input);
    var text := Trim(s.input);
    if text == "" || s.loading then (s, None)
    else
      var messages := s.messages + [Message(JsString(text), true)];
      (ChatState(messages, "", true), Some(RequestBody(messages)))
  }

  /** The `response` field of a successful reply, when it is truthy:
      `data.response` on `null` throws, a falsy value throws on purpose. */
  function AnswerOf(outcome: Outcome): (a: Option<JsValue>)
    ensures a.Some? ==> Truthy(a.value)
    ensures a.Some? <==>
      && outcome.Replied? && IsOk(outcome.status) && outcome.body.Parsed?
      && Get(outcome.body.value, "response").Some? && Truthy(Get(outcome.body.value, "response").value)
  {
    match outcome
    case NetworkError => None
    case Replied(status, body) =>
      if !IsOk(status) then None
      else
        match body
        case Unparsable => None
        case Parsed(data) =>
          match Get(data, "response")
          case None => None
          case Some(v) => if Truthy(v) then Some(v) else None
  }

  /** The part after the request settles: exactly one non-user entry is
      appended (the answer, or the fixed error text) and loading stops. */
  function Complete(s: ChatState, outcome: Outcome): (r: ChatState)
    ensures |r.messages| == |s.messages| + 1 && r.messages[..|s.messages|] == s.messages
    ensures !r.messages[|s.messages|].isUser
    ensures AnswerOf(outcome).Some? ==> r.messages[|s.messages|].text == AnswerOf(outcome).value
    ensures AnswerOf(outcome).None? ==> r.messages[|s.messages|].text == JsString(ErrorText)
    ensures r.input == s.input && !r.loading
  {
    var entry := match AnswerOf(outcome)
      case Some(v) => Message(v, false)
      case None => Message(JsString(ErrorText), false);
    ChatState(s.messages + [entry], s.input, false)
  }

  /** The whole `handleSubmit`: the server is a function from request body
      to outcome. */
  function HandleSubmit(s: ChatState, server: JsValue -> Outcome): (r: ChatState)
    ensures AllSpace(s.input) || s.loading ==> r == s
    ensures !(AllSpace(s.input) || s.loading) ==>
      && |r.messages| == |s.messages| + 2
      && r.messages[..|s.messages|] == s.messages
      && r.messages[|s.messages|] == Message(JsString(Trim(s.input)), true)
      && !r.messages[|s.messages| + 1].isUser
      && r.input == ""
      && !r.loading
  {
    var (sent, body) := Submit(s);
    match body
    case None => sent
    case Some(b) =>
      var r := Complete(sent, server(b));
      assert r.messages[..|s.messages|] == sent.messages[..|s.messages|];
      r
  }

  /** A submit cycle never edits or drops an earlier entry. */
  lemma {:induction false} AppendOnly(s: ChatState, servers: seq<JsValue -> Outcome>)
    ensures var r := Run(s, servers);
      |s.messages| <= |r.messages| && r.messages[..|s.messages|] == s.messages
    decreases |servers|
  {
    if |servers| > 0 {
      var mid := HandleSubmit(s, servers[0]);
      AppendOnly(mid, servers[1..]);
      var r := Run(mid, servers[1..]);
      assert r.messages[..|s.messages|] == r.messages[..|mid.messages|][..|s.messages|];
    }
  }

  /** Several submits in a row, each against its own server behaviour. The
      input is not retyped, so only the first can do anything. */
  function Run(s: ChatState, servers: seq<JsValue -> Outcome>): ChatState
    decreases |servers|
  {
    if |servers| == 0 then s else Run(HandleSubmit(s, servers[0]), servers[1..])
  }

  /** How the chat route reads one sent entry. */
  function AsAiMessage(m: Message): AiMessage {
    AiMessage(if m.isUser then User else Assistant, m.text)
  }

  /** The transcript as the provider messages the chat route builds from
      it: the user's entries as `user`, the rest as `assistant`, with the same
      text, in order. */
  function Transcript(ms: seq<Message>): (msgs: seq<AiMessage>)
    ensures |msgs| == |ms|
    ensures forall i :: 0 <= i < |ms| ==> msgs[i] == AsAiMessage(ms[i])
  {
    if |ms| == 0 then [] else [AsAiMessage(ms[0])] + Transcript(ms[1..])
  }

  /** The chat route accepts every body the view sends and reads the
      transcript back from it. */
  lemma RouteReadsTranscript(ms: seq<Message>)
    ensures ChatRoute.Convertible(Parsed(RequestBody(ms)))
    ensures ChatRoute.ConvertAll(EncodeAll(ms)) == Some(Transcript(ms))
  {
    var items := EncodeAll(ms);
    forall i | 0 <= i < |items| ensures ChatRoute.Convert(items[i]) == Some(AsAiMessage(ms[i])) {
      assert items[i] == Encode(ms[i]);
    }
    assert ChatRoute.ConvertAll(items).value == Transcript(ms);
  }

  /** The server as the chat route: the view's request goes to the route
      without a network failure, and its JSON response comes back. */
  function RouteOutcome(svc: Service, oracle: Oracle, punct: Sanitizer.PunctuationClass, body: JsValue): Outcome
    requires svc.pool.Valid()
  {
    var h := ChatRoute.Post(svc, Parsed(body), oracle, punct);
    Replied(h.response.status, Parsed(h.response.body))
  }

  function ViaRoute(svc: Service, oracle: Oracle, punct: Sanitizer.PunctuationClass): (server: JsValue -> Outcome)
    requires svc.pool.Valid()
  {
    (body: JsValue) => RouteOutcome(svc, oracle, punct, body)
  }

  /** The route answers the view's request with 200 and the cascade's
      reply to the transcript. */
  lemma RouteReplies(sent: seq<Message>, svc: Service, oracle: Oracle, punct: Sanitizer.PunctuationClass)
    requires svc.pool.Valid()
    ensures var out := RouteOutcome(svc, oracle, punct, RequestBody(sent));
      var reply := GenerateResponse(svc, Transcript(sent), oracle, punct).reply;
      && out.Replied? && out.status == 200 && out.body.Parsed? && reply != ""
      && Get(out.body.value, "response") == Some(JsString(reply))
  {
    var body := Parsed(RequestBody(sent));
    RouteReadsTranscript(sent);
    ChatRoute.PostForwards(svc, body, oracle, punct);
  }

  /** The route's answer to the view's request, as the view reads it: the
      cascade's reply to the transcript. */
  lemma RouteAnswers(sent: seq<Message>, svc: Service, oracle: Oracle, punct: Sanitizer.PunctuationClass)
    requires svc.pool.Valid()
    ensures var g := GenerateResponse(svc, Transcript(sent), oracle, punct);
      AnswerOf(ViaRoute(svc, oracle, punct)(RequestBody(sent))) == Some(JsString(g.reply))
  {
    var body := RequestBody(sent);
    RouteReplies(sent, svc, oracle, punct);
    var out := RouteOutcome(svc, oracle, punct, body);
    var reply := GenerateResponse(svc, Transcript(sent), oracle, punct).reply;
    assert Truthy(JsString(reply));
    assert AnswerOf(out) == Some(JsString(reply));
    assert ViaRoute(svc, oracle, punct)(body) == out;
  }

  /** End to end: a submit against the chat route appends the user's entry
      and then the cascade's reply to the transcript that includes it. */
  lemma SubmitThroughRoute(s: ChatState, svc: Service, oracle: Oracle, punct: Sanitizer.PunctuationClass)
    requires svc.pool.Valid()
    requires !AllSpace(s.input) && !s.loading
    ensures var sent := s.messages + [Message(JsString(Trim(s.input)), true)];
      var g := GenerateResponse(svc, Transcript(sent), oracle, punct);
      HandleSubmit(s, ViaRoute(svc, oracle, punct)).messages == sent + [Message(JsString(g.reply), false)]
  {
    var sent := s.messages + [Message(JsString(Trim(s.input)), true)];
    var server := ViaRoute(svc, oracle, punct);
    var submitted := Submit(s);
    assert submitted.1 == Some(RequestBody(sent)) && submitted.0.messages == sent;
    RouteAnswers(sent, svc, oracle, punct);
    var r := Complete(submitted.0, server(RequestBody(sent)));
    assert HandleSubmit(s, server) == r;
  }
}
