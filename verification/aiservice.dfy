/** The text-reply cascade of services/aiService.ts. Each provider request
    goes to an oracle that stands for `fetch` plus `response.json()`. Each
    sweep returns the requests it made in order, so that short-circuiting,
    attempt counts and key order can be stated about that trace. */
module AiService {
  import opened Base
  import opened Js
  import opened KeyRotation
  import Sanitizer

  datatype Role = System | User | Assistant

  /** `AIMessage`. The content is whatever the caller put there. The service
      passes it on without looking at it. */
  datatype AiMessage = AiMessage(role: Role, content: JsValue)

  datatype Provider = Groq | OpenRouter

  /** One outbound chat-completion request. */
  datatype Request = Request(provider: Provider, model: string, key: string, messages: seq<AiMessage>)

  /** `choices[0].message.content`: a string, or some other value. */
  datatype Content = Text(text: string) | NotText

  /** What one request yields:
      - a non-ok HTTP status;
      - a payload without `choices[0].message`, an unparsable body or a
        rejected `fetch` (the source treats all three alike);
      - a payload with a message. */
  datatype Reply = HttpError(status: nat, statusText: string) | BadShape | Answered(content: Content)

  type Oracle = Request -> Reply

  /** The service instance: configuration plus the rotation cursor. The
      two providers get their own system prompt: the source writes the text
      out twice, and the two copies are not identical. */
  datatype Service = Service(
    groqPrompt: string,
    openRouterPrompt: string,
    groqKey: string,
    groqModels: seq<string>,
    openRouterModels: seq<string>,
    pool: KeyPool)

  /** The constructor reads `GROQ_API_KEY || ''` and the OpenRouter key list. */
  function NewService(groqPrompt: string, openRouterPrompt: string, groqEnv: Option<string>, openRouterEnv: Option<string>,
                      groqModels: seq<string>, openRouterModels: seq<string>): (s: Service)
    ensures s.pool.Valid() && s.pool.cursor == 0
    ensures s.groqKey == groqEnv.GetOr("")
    ensures s.groqPrompt == groqPrompt && s.openRouterPrompt == openRouterPrompt
    ensures s.pool == FromEnvironment(openRouterEnv)
  {
    Service(groqPrompt, openRouterPrompt, groqEnv.GetOr(""), groqModels, openRouterModels, FromEnvironment(openRouterEnv))
  }

  /** The fixed reply when both providers are exhausted. */
  const Apology: string :=
    "Извините, в данный " + "момент AI-сервис " + "недоступен. " + "Попробуйте позже."

  /** `[systemPrompt, ...messages]`. */
  function Conversation(prompt: string, msgs: seq<AiMessage>): (conv: seq<AiMessage>)
    ensures |conv| == |msgs| + 1
    ensures conv[0] == AiMessage(System, JsString(prompt))
    ensures conv[1..] == msgs
  {
    [AiMessage(System, JsString(prompt))] + msgs
  }

  /** The result of one provider's sweep: the content of the first message
      received, if any, and every request made, in order. */
  datatype Sweep = Sweep(answer: Option<Content>, trace: seq<Request>)

  /** A sweep stops at the first request answered with a message:
      - every earlier request failed softly;
      - without an answer, every request failed softly;
      - with an answer, the last request is the one that gave it. */
  predicate StopsAtFirstAnswer(s: Sweep, oracle: Oracle) {
    && (forall t :: 0 <= t < |s.trace| - 1 ==> !oracle(s.trace[t]).Answered?)
    && (s.answer.None? ==> forall t :: 0 <= t < |s.trace| ==> !oracle(s.trace[t]).Answered?)
    && (s.answer.Some? ==> |s.trace| > 0 && oracle(s.trace[|s.trace| - 1]) == Answered(s.answer.value))
  }

  /** The Groq loop: one request per model, all with the same key, tried in
      list order. */
  function GroqSweep(models: seq<string>, key: string, conv: seq<AiMessage>, oracle: Oracle): (s: Sweep)
    ensures StopsAtFirstAnswer(s, oracle)
    ensures |s.trace| <= |models|
    ensures s.answer.None? ==> |s.trace| == |models|
    ensures forall t :: 0 <= t < |s.trace| ==> s.trace[t] == Request(Groq, models[t], key, conv)
  {
    if |models| == 0 then Sweep(None, [])
    else
      var req := Request(Groq, models[0], key, conv);
      match oracle(req)
      case Answered(c) => Sweep(Some(c), [req])
      case _ =>
        var rest := GroqSweep(models[1..], key, conv, oracle);
        var trace := [req] + rest.trace;
        assert forall t :: 0 < t < |trace| ==> trace[t] == rest.trace[t - 1];
        Sweep(rest.answer, trace)
  }

  /** `makeGroqRequest`. */
  function MakeGroqRequest(svc: Service, msgs: seq<AiMessage>, oracle: Oracle): Sweep {
    GroqSweep(svc.groqModels, svc.groqKey, Conversation(svc.groqPrompt, msgs), oracle)
  }

  /** The number of requests of `models` full rounds of `perModel` key
      attempts each; equal to `models * perModel` (see `BudgetIsProduct`). */
  function Budget(models: nat, perModel: nat): nat {
    if models == 0 then 0 else perModel + Budget(models - 1, perModel)
  }

  lemma {:induction false} BudgetIsProduct(models: nat, perModel: nat)
    ensures Budget(models, perModel) == models * perModel
  {
    if models > 0 {
      BudgetIsProduct(models - 1, perModel);
    }
  }

  /** The OpenRouter loops from key attempt `attempt` of the first model in
      `models` onwards. Each model gets `AttemptsPerModel(K)` key attempts,
      and each attempt takes the next key from the pool. The result is the
      sweep and the pool after it, which keeps its keys and stays valid. */
  function OpenRouterFrom(models: seq<string>, attempt: nat, conv: seq<AiMessage>, pool: KeyPool, oracle: Oracle)
    : (r: (Sweep, KeyPool))
    requires pool.Valid()
    requires attempt <= AttemptsPerModel(|pool.keys|)
    requires |models| == 0 ==> attempt == 0
    ensures r.1.keys == pool.keys && r.1.Valid()
    decreases |models|, AttemptsPerModel(|pool.keys|) - attempt
  {
    if |models| == 0 then (Sweep(None, []), pool)
    else if attempt == AttemptsPerModel(|pool.keys|) then OpenRouterFrom(models[1..], 0, conv, pool, oracle)
    else
      var taken := NextKey(pool).value;
      var req := Request(OpenRouter, models[0], taken.0, conv);
      var reply := oracle(req);
      if reply.Answered? then (Sweep(Some(reply.content), [req]), taken.1)
      else
        var rest := OpenRouterFrom(models, attempt + 1, conv, taken.1, oracle);
        (Sweep(rest.0.answer, [req] + rest.0.trace), rest.1)
  }

  /** `makeOpenRouterRequest`: the result is the sweep and the service with
      its cursor moved on. */
  function MakeOpenRouterRequest(svc: Service, msgs: seq<AiMessage>, oracle: Oracle): (r: (Sweep, Service))
    requires svc.pool.Valid()
  {
    var (sweep, pool) := OpenRouterFrom(svc.openRouterModels, 0, Conversation(svc.openRouterPrompt, msgs), svc.pool, oracle);
    (sweep, svc.(pool := pool))
  }

  /** The text the sweep found, if it found a string. A message whose
      `content` is not a string makes `validateRussianResponse` throw, and
      the cascade treats that like a failed provider. */
  function FoundText(s: Sweep): Option<string> {
    if s.answer.Some? && s.answer.value.Text? then Some(s.answer.value.text) else None
  }

  /** The outcome of `generateResponse`: the reply, every request made in
      order, and the service with its cursor moved on. */
  datatype Generated = Generated(reply: string, trace: seq<Request>, service: Service)

  /** `generateResponse`: Groq first, OpenRouter only when Groq yields no
      text, and the fixed apology when neither does. It never throws. */
  function GenerateResponse(svc: Service, msgs: seq<AiMessage>, oracle: Oracle, punct: Sanitizer.PunctuationClass)
    : (g: Generated)
    requires svc.pool.Valid()
    ensures g.service.pool.Valid() && g.service.pool.keys == svc.pool.keys
    ensures g.service == svc.(pool := g.service.pool)
    ensures |g.reply| > 0
    ensures g.reply == Apology || g.reply == Sanitizer.Greeting || Sanitizer.WellFormed(g.reply, punct)
  {
    var groq := MakeGroqRequest(svc, msgs, oracle);
    match FoundText(groq)
    case Some(text) => Generated(Sanitizer.Validate(text, punct), groq.trace, svc)
    case None =>
      var (open, svc') := MakeOpenRouterRequest(svc, msgs, oracle);
      match FoundText(open)
      case Some(text) => Generated(Sanitizer.Validate(text, punct), groq.trace + open.trace, svc')
      case None => Generated(Apology, groq.trace + open.trace, svc')
  }
}

/** Properties of the cascade that relate several requests or several
    calls. */
module AiServiceProofs {
  import opened Base
  import opened Js
  import opened KeyRotation
  import opened AiService
  import Sanitizer
  import Strings

  /** The model index of attempt `a` when every model gets `p` attempts:
      `a / p` (see `RoundIsDiv`). */
  function Round(a: nat, p: nat): nat
    requires p > 0
    decreases a
  {
    if a < p then 0 else 1 + Round(a - p, p)
  }

  lemma {:induction false} RoundIsDiv(a: nat, p: nat)
    requires p > 0
    ensures Round(a, p) == a / p
    decreases a
  {
    if a < p {
      DivModUnique(a, p, 0, a);
    } else {
      RoundIsDiv(a - p, p);
      DivModUnique(a - p, p, (a - p) / p, (a - p) % p);
      DivModUnique(a, p, (a - p) / p + 1, (a - p) % p);
    }
  }

  /** The OpenRouter loops stop at the first request answered with a
      message. */
  lemma {:induction false} OpenRouterStops(models: seq<string>, attempt: nat, conv: seq<AiMessage>,
                                           pool: KeyPool, oracle: Oracle)
    requires pool.Valid()
    requires attempt <= AttemptsPerModel(|pool.keys|)
    requires |models| == 0 ==> attempt == 0
    ensures StopsAtFirstAnswer(OpenRouterFrom(models, attempt, conv, pool, oracle).0, oracle)
    decreases |models|, AttemptsPerModel(|pool.keys|) - attempt
  {
    var r := OpenRouterFrom(models, attempt, conv, pool, oracle);
    if |models| == 0 {
    } else if attempt == AttemptsPerModel(|pool.keys|) {
      OpenRouterStops(models[1..], 0, conv, pool, oracle);
    } else {
      var taken := NextKey(pool).value;
      var req := Request(OpenRouter, models[0], taken.0, conv);
      if !oracle(req).Answered? {
        var rest := OpenRouterFrom(models, attempt + 1, conv, taken.1, oracle);
        assert r.0 == Sweep(rest.0.answer, [req] + rest.0.trace);
        OpenRouterStops(models, attempt + 1, conv, taken.1, oracle);
        PrependFailure(req, rest.0, oracle);
      }
    }
  }

  /** Putting a softly failed request in front of a sweep keeps the sweep
      stopping at its first answer. */
  lemma PrependFailure(req: Request, s: Sweep, oracle: Oracle)
    requires !oracle(req).Answered?
    requires StopsAtFirstAnswer(s, oracle)
    ensures StopsAtFirstAnswer(Sweep(s.answer, [req] + s.trace), oracle)
  {
    var t' := [req] + s.trace;
    assert forall t :: 0 < t < |t'| ==> t'[t] == s.trace[t - 1];
  }

  /** The OpenRouter loops make at most `AttemptsPerModel(K)` requests per
      model, and exactly that many when no request is answered. */
  lemma {:induction false} OpenRouterCount(models: seq<string>, attempt: nat, conv: seq<AiMessage>,
                                           pool: KeyPool, oracle: Oracle)
    requires pool.Valid()
    requires attempt <= AttemptsPerModel(|pool.keys|)
    requires |models| == 0 ==> attempt == 0
    ensures var r := OpenRouterFrom(models, attempt, conv, pool, oracle);
      && |r.0.trace| + attempt <= Budget(|models|, AttemptsPerModel(|pool.keys|))
      && (r.0.answer.None? ==> |r.0.trace| + attempt == Budget(|models|, AttemptsPerModel(|pool.keys|)))
    decreases |models|, AttemptsPerModel(|pool.keys|) - attempt
  {
    if |models| == 0 {
    } else if attempt == AttemptsPerModel(|pool.keys|) {
      OpenRouterCount(models[1..], 0, conv, pool, oracle);
    } else {
      var taken := NextKey(pool).value;
      var req := Request(OpenRouter, models[0], taken.0, conv);
      OpenRouterCount(models, attempt + 1, conv, taken.1, oracle);
    }
  }

  /** Every request of `trace` went to OpenRouter with conversation `conv`. */
  predicate AllOpenRouter(trace: seq<Request>, conv: seq<AiMessage>) {
    forall t :: 0 <= t < |trace| ==> trace[t].provider == OpenRouter && trace[t].messages == conv
  }

  /** Every OpenRouter request carries the whole conversation. */
  lemma {:induction false} OpenRouterShape(models: seq<string>, attempt: nat, conv: seq<AiMessage>,
                                           pool: KeyPool, oracle: Oracle)
    requires pool.Valid()
    requires attempt <= AttemptsPerModel(|pool.keys|)
    requires |models| == 0 ==> attempt == 0
    ensures AllOpenRouter(OpenRouterFrom(models, attempt, conv, pool, oracle).0.trace, conv)
    decreases |models|, AttemptsPerModel(|pool.keys|) - attempt
  {
    if |models| == 0 {
    } else if attempt == AttemptsPerModel(|pool.keys|) {
      OpenRouterShape(models[1..], 0, conv, pool, oracle);
      assert OpenRouterFrom(models, attempt, conv, pool, oracle) == OpenRouterFrom(models[1..], 0, conv, pool, oracle);
    } else {
      var taken := NextKey(pool).value;
      var req := Request(OpenRouter, models[0], taken.0, conv);
      if !oracle(req).Answered? {
        var rest := OpenRouterFrom(models, attempt + 1, conv, taken.1, oracle);
        assert OpenRouterFrom(models, attempt, conv, pool, oracle).0.trace == [req] + rest.0.trace;
        OpenRouterShape(models, attempt + 1, conv, taken.1, oracle);
        var tr := [req] + rest.0.trace;
        assert forall t :: 0 < t < |tr| ==> tr[t] == rest.0.trace[t - 1];
      } else {
        assert OpenRouterFrom(models, attempt, conv, pool, oracle).0.trace == [req];
      }
    }
  }

  /** Attempt `t` of `trace` used the key `t` places after cursor `c`. */
  predicate KeysFromSlot(trace: seq<Request>, keys: seq<string>, c: nat)
    requires c < |keys|
  {
    forall t :: 0 <= t < |trace| ==> trace[t].key == keys[Slot(c, t, |keys|)]
  }

  /** The `t`-th OpenRouter attempt uses the key `t` places after the
      cursor. */
  lemma {:induction false} OpenRouterKeyOrder(models: seq<string>, attempt: nat, conv: seq<AiMessage>,
                                              pool: KeyPool, oracle: Oracle)
    requires pool.Valid() && |pool.keys| > 0
    requires attempt <= AttemptsPerModel(|pool.keys|)
    requires |models| == 0 ==> attempt == 0
    ensures KeysFromSlot(OpenRouterFrom(models, attempt, conv, pool, oracle).0.trace, pool.keys, pool.cursor)
    decreases |models|, AttemptsPerModel(|pool.keys|) - attempt
  {
    if |models| == 0 {
    } else if attempt == AttemptsPerModel(|pool.keys|) {
      OpenRouterKeyOrder(models[1..], 0, conv, pool, oracle);
      assert OpenRouterFrom(models, attempt, conv, pool, oracle) == OpenRouterFrom(models[1..], 0, conv, pool, oracle);
    } else {
      var taken := NextKey(pool).value;
      var req := Request(OpenRouter, models[0], taken.0, conv);
      if !oracle(req).Answered? {
        var rest := OpenRouterFrom(models, attempt + 1, conv, taken.1, oracle);
        assert OpenRouterFrom(models, attempt, conv, pool, oracle).0.trace == [req] + rest.0.trace;
        OpenRouterKeyOrder(models, attempt + 1, conv, taken.1, oracle);
        ShiftKeys(pool.keys, pool.cursor, req, rest.0.trace);
      }
    }
  }

  lemma ShiftKeys(keys: seq<string>, c: nat, req: Request, rest: seq<Request>)
    requires c < |keys| && req.key == keys[c]
    requires KeysFromSlot(rest, keys, Succ(c, |keys|))
    ensures KeysFromSlot([req] + rest, keys, c)
  {
    forall t | 0 <= t < |rest| + 1 ensures ([req] + rest)[t].key == keys[Slot(c, t, |keys|)] {
      if t > 0 {
        assert ([req] + rest)[t] == rest[t - 1];
      }
    }
  }

  /** After the OpenRouter loops the cursor stands one place after the last
      key used: as many places on as requests were made. */
  lemma {:induction false} OpenRouterCursor(models: seq<string>, attempt: nat, conv: seq<AiMessage>,
                                            pool: KeyPool, oracle: Oracle)
    requires pool.Valid() && |pool.keys| > 0
    requires attempt <= AttemptsPerModel(|pool.keys|)
    requires |models| == 0 ==> attempt == 0
    ensures var r := OpenRouterFrom(models, attempt, conv, pool, oracle);
      r.1.cursor == Slot(pool.cursor, |r.0.trace|, |pool.keys|)
    decreases |models|, AttemptsPerModel(|pool.keys|) - attempt
  {
    if |models| == 0 {
    } else if attempt == AttemptsPerModel(|pool.keys|) {
      OpenRouterCursor(models[1..], 0, conv, pool, oracle);
      assert OpenRouterFrom(models, attempt, conv, pool, oracle) == OpenRouterFrom(models[1..], 0, conv, pool, oracle);
    } else {
      var taken := NextKey(pool).value;
      var req := Request(OpenRouter, models[0], taken.0, conv);
      if !oracle(req).Answered? {
        var rest := OpenRouterFrom(models, attempt + 1, conv, taken.1, oracle);
        assert OpenRouterFrom(models, attempt, conv, pool, oracle) == (Sweep(rest.0.answer, [req] + rest.0.trace), rest.1);
        OpenRouterCursor(models, attempt + 1, conv, taken.1, oracle);
      }
    }
  }

  /** Models are visited in list order, `AttemptsPerModel(K)` attempts each:
      attempt `t` (counting the `attempt` already made on the first model)
      goes to model `Round(attempt + t, AttemptsPerModel(K))`. */
  lemma {:induction false} OpenRouterModelOrder(models: seq<string>, attempt: nat, conv: seq<AiMessage>,
                                                pool: KeyPool, oracle: Oracle)
    requires pool.Valid() && |pool.keys| > 0
    requires attempt <= AttemptsPerModel(|pool.keys|)
    requires |models| == 0 ==> attempt == 0
    ensures ModelsInRounds(OpenRouterFrom(models, attempt, conv, pool, oracle).0.trace,
                           models, attempt, AttemptsPerModel(|pool.keys|))
    decreases |models|, AttemptsPerModel(|pool.keys|) - attempt
  {
    var k := |pool.keys|;
    var p := AttemptsPerModel(k);
    var r := OpenRouterFrom(models, attempt, conv, pool, oracle);
    if |models| == 0 {
    } else if attempt == p {
      OpenRouterModelOrder(models[1..], 0, conv, pool, oracle);
      assert r == OpenRouterFrom(models[1..], 0, conv, pool, oracle);
      NextModel(r.0.trace, models, p);
    } else {
      var taken := NextKey(pool).value;
      var next := taken.1;
      var req := Request(OpenRouter, models[0], taken.0, conv);
      if !oracle(req).Answered? {
        var rest := OpenRouterFrom(models, attempt + 1, conv, next, oracle);
        assert r == (Sweep(rest.0.answer, [req] + rest.0.trace), rest.1);
        OpenRouterModelOrder(models, attempt + 1, conv, next, oracle);
        NextAttempt(req, rest.0.trace, models, attempt, p);
      }
    }
  }

  /** Attempt `t` of `trace`, counted from attempt `attempt` of the first of
      `models`, went to model `Round(attempt + t, p)`; the quantifier ranges
      over the absolute attempt number `a = attempt + t`. */
  predicate ModelsInRounds(trace: seq<Request>, models: seq<string>, attempt: nat, p: nat)
    requires p > 0
  {
    forall a :: attempt <= a < attempt + |trace| ==>
      Round(a, p) < |models| && trace[a - attempt].model == models[Round(a, p)]
  }

  lemma NextModel(trace: seq<Request>, models: seq<string>, p: nat)
    requires p > 0 && |models| > 0
    requires ModelsInRounds(trace, models[1..], 0, p)
    ensures ModelsInRounds(trace, models, p, p)
  {
    forall a | p <= a < p + |trace|
      ensures Round(a, p) < |models| && trace[a - p].model == models[Round(a, p)]
    {
      assert Round(a, p) == 1 + Round(a - p, p);
      assert Round(a - p, p) < |models| - 1;
    }
  }

  lemma NextAttempt(req: Request, rest: seq<Request>, models: seq<string>, attempt: nat, p: nat)
    requires attempt < p && |models| > 0 && req.model == models[0]
    requires ModelsInRounds(rest, models, attempt + 1, p)
    ensures ModelsInRounds([req] + rest, models, attempt, p)
  {
    forall a | attempt <= a < attempt + |rest| + 1
      ensures Round(a, p) < |models| && ([req] + rest)[a - attempt].model == models[Round(a, p)]
    {
      if a > attempt {
        assert ([req] + rest)[a - attempt] == rest[a - (attempt + 1)];
      }
    }
  }

  /** With no OpenRouter keys no OpenRouter request is made and the sweep
      fails. */
  lemma OpenRouterWithoutKeys(svc: Service, msgs: seq<AiMessage>, oracle: Oracle)
    requires svc.pool.Valid() && |svc.pool.keys| == 0
    ensures MakeOpenRouterRequest(svc, msgs, oracle).0 == Sweep(None, [])
  {
    OpenRouterCount(svc.openRouterModels, 0, Conversation(svc.openRouterPrompt, msgs), svc.pool, oracle);
    OpenRouterStops(svc.openRouterModels, 0, Conversation(svc.openRouterPrompt, msgs), svc.pool, oracle);
    BudgetIsProduct(|svc.openRouterModels|, 0);
  }

  /** `makeOpenRouterRequest` rotates the keys as the source's cursor does:
      request `t` uses key `(cursor + t) % K`, and the cursor ends `|trace|`
      places on, modulo `K`. */
  lemma OpenRouterKeyRotation(svc: Service, msgs: seq<AiMessage>, oracle: Oracle)
    requires svc.pool.Valid() && |svc.pool.keys| > 0
    ensures var r := MakeOpenRouterRequest(svc, msgs, oracle);
      var k := |svc.pool.keys|;
      && (forall t :: 0 <= t < |r.0.trace| ==> r.0.trace[t].key == svc.pool.keys[(svc.pool.cursor + t) % k])
      && r.1.pool.cursor == (svc.pool.cursor + |r.0.trace|) % k
  {
    var k := |svc.pool.keys|;
    var conv := Conversation(svc.openRouterPrompt, msgs);
    var r := MakeOpenRouterRequest(svc, msgs, oracle);
    var tr := r.0.trace;
    assert r == (OpenRouterFrom(svc.openRouterModels, 0, conv, svc.pool, oracle).0,
                 svc.(pool := OpenRouterFrom(svc.openRouterModels, 0, conv, svc.pool, oracle).1));
    OpenRouterKeyOrder(svc.openRouterModels, 0, conv, svc.pool, oracle);
    OpenRouterCursor(svc.openRouterModels, 0, conv, svc.pool, oracle);
    SlotIsMod(svc.pool.cursor, |tr|, k);
    forall t | 0 <= t < |tr| ensures tr[t].key == svc.pool.keys[(svc.pool.cursor + t) % k] {
      SlotIsMod(svc.pool.cursor, t, k);
    }
  }

  /** `makeOpenRouterRequest` walks the models in list order, `min(3, K)`
      requests each: request `t` goes to model `t / min(3, K)`. */
  lemma OpenRouterModelRotation(svc: Service, msgs: seq<AiMessage>, oracle: Oracle)
    requires svc.pool.Valid() && |svc.pool.keys| > 0
    ensures var r := MakeOpenRouterRequest(svc, msgs, oracle);
      var p := AttemptsPerModel(|svc.pool.keys|);
      forall t :: 0 <= t < |r.0.trace| ==>
        t / p < |svc.openRouterModels| && r.0.trace[t].model == svc.openRouterModels[t / p]
  {
    var p := AttemptsPerModel(|svc.pool.keys|);
    var conv := Conversation(svc.openRouterPrompt, msgs);
    var models := svc.openRouterModels;
    var tr := MakeOpenRouterRequest(svc, msgs, oracle).0.trace;
    assert tr == OpenRouterFrom(models, 0, conv, svc.pool, oracle).0.trace;
    OpenRouterModelOrder(models, 0, conv, svc.pool, oracle);
    forall t | 0 <= t < |tr| ensures t / p < |models| && tr[t].model == models[t / p] {
      RoundIsDiv(t, p);
      assert 0 <= t < 0 + |tr|;
    }
  }

  /** A request whose reply carried a string message. */
  predicate GotText(oracle: Oracle, req: Request) {
    oracle(req).Answered? && oracle(req).content.Text?
  }

  /** Every request of a sweep that found no text got no text. */
  lemma NoTextInSweep(s: Sweep, oracle: Oracle)
    requires StopsAtFirstAnswer(s, oracle) && FoundText(s).None?
    ensures forall t :: 0 <= t < |s.trace| ==> !GotText(oracle, s.trace[t])
  {
  }

  /** How `generateResponse` composes the two sweeps. */
  lemma Cascade(svc: Service, msgs: seq<AiMessage>, oracle: Oracle, punct: Sanitizer.PunctuationClass)
    requires svc.pool.Valid()
    ensures var g := GenerateResponse(svc, msgs, oracle, punct);
      var groq := MakeGroqRequest(svc, msgs, oracle);
      var open := MakeOpenRouterRequest(svc, msgs, oracle);
      && (FoundText(groq).Some? ==>
            g == Generated(Sanitizer.Validate(FoundText(groq).value, punct), groq.trace, svc))
      && (FoundText(groq).None? && FoundText(open.0).Some? ==>
            g == Generated(Sanitizer.Validate(FoundText(open.0).value, punct), groq.trace + open.0.trace, open.1))
      && (FoundText(groq).None? && FoundText(open.0).None? ==>
            g == Generated(Apology, groq.trace + open.0.trace, open.1))
  {
  }

  /** The apology is neither the greeting nor a well-formed reply: it holds
      Latin letters. */
  lemma ApologyIsDistinct(punct: Sanitizer.PunctuationClass)
    ensures Apology != Sanitizer.Greeting
    ensures !Sanitizer.WellFormed(Apology, punct)
  {
    var c := Apology[26];
    assert c == 'A';
    assert Strings.IsAsciiLetter(c);
    assert !Sanitizer.Allowed(c, punct);
    assert Sanitizer.Greeting[10] == 'J';
  }

  /** Groq is asked first, with its first model and its key, even when the
      key is empty. */
  lemma GroqFirst(svc: Service, msgs: seq<AiMessage>, oracle: Oracle, punct: Sanitizer.PunctuationClass)
    requires svc.pool.Valid() && |svc.groqModels| > 0
    ensures var g := GenerateResponse(svc, msgs, oracle, punct);
      |g.trace| > 0 && g.trace[0] == Request(Groq, svc.groqModels[0], svc.groqKey, Conversation(svc.groqPrompt, msgs))
  {
    Cascade(svc, msgs, oracle, punct);
    var groq := MakeGroqRequest(svc, msgs, oracle);
    assert |groq.trace| > 0;
  }

  /** A text answer from the first Groq model ends the cascade: nothing else
      is asked, the cursor does not move, and the reply is the cleaned text. */
  lemma ShortCircuit(svc: Service, msgs: seq<AiMessage>, oracle: Oracle, punct: Sanitizer.PunctuationClass, text: string)
    requires svc.pool.Valid() && |svc.groqModels| > 0
    requires oracle(Request(Groq, svc.groqModels[0], svc.groqKey, Conversation(svc.groqPrompt, msgs))) == Answered(Text(text))
    ensures var g := GenerateResponse(svc, msgs, oracle, punct);
      && g.trace == [Request(Groq, svc.groqModels[0], svc.groqKey, Conversation(svc.groqPrompt, msgs))]
      && g.reply == Sanitizer.Validate(text, punct)
      && g.service == svc
  {
    Cascade(svc, msgs, oracle, punct);
  }

  /** The requests of `generateResponse`: the Groq sweep, then the OpenRouter
      sweep when Groq found no text. */
  lemma CascadeTrace(svc: Service, msgs: seq<AiMessage>, oracle: Oracle, punct: Sanitizer.PunctuationClass)
    requires svc.pool.Valid()
    ensures var g := GenerateResponse(svc, msgs, oracle, punct);
      var groq := MakeGroqRequest(svc, msgs, oracle);
      var open := MakeOpenRouterRequest(svc, msgs, oracle);
      g.trace == groq.trace + (if FoundText(groq).None? then open.0.trace else [])
  {
    Cascade(svc, msgs, oracle, punct);
    var groq := MakeGroqRequest(svc, msgs, oracle);
    assert groq.trace + [] == groq.trace;
  }

  /** The Groq requests come first, one per Groq model in list order, all
      with the Groq key. */
  lemma GroqRequestsFirst(svc: Service, msgs: seq<AiMessage>, oracle: Oracle, punct: Sanitizer.PunctuationClass)
    requires svc.pool.Valid()
    ensures var g := GenerateResponse(svc, msgs, oracle, punct);
      forall t :: 0 <= t < |g.trace| && g.trace[t].provider == Groq ==>
        t < |svc.groqModels| && g.trace[t].model == svc.groqModels[t] && g.trace[t].key == svc.groqKey
  {
    var conv := Conversation(svc.openRouterPrompt, msgs);
    var groq := MakeGroqRequest(svc, msgs, oracle);
    var open := MakeOpenRouterRequest(svc, msgs, oracle);
    var tail := if FoundText(groq).None? then open.0.trace else [];
    CascadeTrace(svc, msgs, oracle, punct);
    OpenRouterShape(svc.openRouterModels, 0, conv, svc.pool, oracle);
    assert open.0 == OpenRouterFrom(svc.openRouterModels, 0, conv, svc.pool, oracle).0;
    assert AllOpenRouter(tail, conv);
    PrefixThenRest(groq.trace, tail);
  }

  /** Indexing into a concatenation. */
  lemma PrefixThenRest(a: seq<Request>, b: seq<Request>)
    ensures forall t :: 0 <= t < |a| ==> (a + b)[t] == a[t]
    ensures forall t :: |a| <= t < |a| + |b| ==> (a + b)[t] == b[t - |a|]
  {
  }

  /** Once an OpenRouter request is made no Groq request follows, and
      OpenRouter is asked only when no Groq request got a text answer. */
  lemma OpenRouterOnlyAfterGroq(svc: Service, msgs: seq<AiMessage>, oracle: Oracle, punct: Sanitizer.PunctuationClass)
    requires svc.pool.Valid()
    ensures var g := GenerateResponse(svc, msgs, oracle, punct);
      && (forall i, j :: 0 <= i < j < |g.trace| && g.trace[i].provider == OpenRouter ==>
            g.trace[j].provider == OpenRouter)
      && (forall i, j ::
            && 0 <= i < |g.trace| && 0 <= j < |g.trace|
            && g.trace[i].provider == Groq && g.trace[j].provider == OpenRouter
            ==> !GotText(oracle, g.trace[i]))
  {
    var conv := Conversation(svc.openRouterPrompt, msgs);
    var groq := MakeGroqRequest(svc, msgs, oracle);
    var open := MakeOpenRouterRequest(svc, msgs, oracle);
    var tail := if FoundText(groq).None? then open.0.trace else [];
    CascadeTrace(svc, msgs, oracle, punct);
    OpenRouterShape(svc.openRouterModels, 0, conv, svc.pool, oracle);
    assert open.0 == OpenRouterFrom(svc.openRouterModels, 0, conv, svc.pool, oracle).0;
    assert AllOpenRouter(tail, conv);
    PrefixThenRest(groq.trace, tail);
    if FoundText(groq).None? {
      NoTextInSweep(groq, oracle);
    }
  }

  /** The system prompt a provider's requests carry. */
  function SystemPrompt(svc: Service, p: Provider): string {
    match p
    case Groq => svc.groqPrompt
    case OpenRouter => svc.openRouterPrompt
  }

  /** Every request carries its provider's system prompt followed by the
      caller's messages, unchanged. */
  lemma ConversationEverywhere(svc: Service, msgs: seq<AiMessage>, oracle: Oracle, punct: Sanitizer.PunctuationClass)
    requires svc.pool.Valid()
    ensures var g := GenerateResponse(svc, msgs, oracle, punct);
      forall t :: 0 <= t < |g.trace| ==>
        && g.trace[t].messages == Conversation(SystemPrompt(svc, g.trace[t].provider), msgs)
        && g.trace[t].messages[1..] == msgs
  {
    var groq := MakeGroqRequest(svc, msgs, oracle);
    var open := MakeOpenRouterRequest(svc, msgs, oracle).0;
    CascadeTrace(svc, msgs, oracle, punct);
    GroqCarriesPrompt(svc, msgs, oracle);
    OpenRouterCarriesPrompt(svc, msgs, oracle);
    CarriesPromptAppend(svc, msgs, groq.trace, if FoundText(groq).None? then open.trace else []);
  }

  /** Every request of `trace` carries its provider's system prompt and then
      `msgs`. */
  predicate CarriesPrompt(svc: Service, msgs: seq<AiMessage>, trace: seq<Request>) {
    forall t :: 0 <= t < |trace| ==>
      trace[t].messages == Conversation(SystemPrompt(svc, trace[t].provider), msgs)
  }

  lemma GroqCarriesPrompt(svc: Service, msgs: seq<AiMessage>, oracle: Oracle)
    ensures CarriesPrompt(svc, msgs, MakeGroqRequest(svc, msgs, oracle).trace)
  {
    var groq := MakeGroqRequest(svc, msgs, oracle);
    forall t | 0 <= t < |groq.trace| ensures groq.trace[t].provider == Groq {
    }
  }

  lemma OpenRouterCarriesPrompt(svc: Service, msgs: seq<AiMessage>, oracle: Oracle)
    requires svc.pool.Valid()
    ensures CarriesPrompt(svc, msgs, MakeOpenRouterRequest(svc, msgs, oracle).0.trace)
  {
    var convO := Conversation(svc.openRouterPrompt, msgs);
    OpenRouterShape(svc.openRouterModels, 0, convO, svc.pool, oracle);
  }

  lemma CarriesPromptAppend(svc: Service, msgs: seq<AiMessage>, a: seq<Request>, b: seq<Request>)
    requires CarriesPrompt(svc, msgs, a) && CarriesPrompt(svc, msgs, b)
    ensures CarriesPrompt(svc, msgs, a + b)
  {
    PrefixThenRest(a, b);
  }

  /** The cascade stops at the first text answer: no request before the
      last one got a text. */
  lemma NoTextBeforeLast(svc: Service, msgs: seq<AiMessage>, oracle: Oracle, punct: Sanitizer.PunctuationClass)
    requires svc.pool.Valid()
    ensures var g := GenerateResponse(svc, msgs, oracle, punct);
      forall t :: 0 <= t < |g.trace| - 1 ==> !GotText(oracle, g.trace[t])
  {
    var conv := Conversation(svc.openRouterPrompt, msgs);
    var groq := MakeGroqRequest(svc, msgs, oracle);
    var open := MakeOpenRouterRequest(svc, msgs, oracle).0;
    CascadeTrace(svc, msgs, oracle, punct);
    if FoundText(groq).None? {
      OpenRouterStops(svc.openRouterModels, 0, conv, svc.pool, oracle);
      assert open == OpenRouterFrom(svc.openRouterModels, 0, conv, svc.pool, oracle).0;
      NoTextInSweep(groq, oracle);
      PrefixThenRest(groq.trace, open.trace);
    } else {
      assert groq.trace + [] == groq.trace;
    }
  }

  /** A sweep that found a text got it from its last request. */
  lemma TextFromLastRequest(s: Sweep, oracle: Oracle)
    requires StopsAtFirstAnswer(s, oracle) && FoundText(s).Some?
    ensures |s.trace| > 0 && GotText(oracle, s.trace[|s.trace| - 1])
    ensures oracle(s.trace[|s.trace| - 1]).content.text == FoundText(s).value
  {
  }

  /** The text of the answer to the last request of `trace`, cleaned. */
  predicate CleanedLastText(reply: string, trace: seq<Request>, oracle: Oracle, punct: Sanitizer.PunctuationClass) {
    && |trace| > 0
    && GotText(oracle, trace[|trace| - 1])
    && reply == Sanitizer.Validate(oracle(trace[|trace| - 1]).content.text, punct)
  }

  /** Any reply other than the apology is the cleaned text of the answer to
      the last request made. */
  lemma ReplyFromLastAnswer(svc: Service, msgs: seq<AiMessage>, oracle: Oracle, punct: Sanitizer.PunctuationClass)
    requires svc.pool.Valid()
    ensures var g := GenerateResponse(svc, msgs, oracle, punct);
      g.reply != Apology ==> CleanedLastText(g.reply, g.trace, oracle, punct)
  {
    var groq := MakeGroqRequest(svc, msgs, oracle);
    if FoundText(groq).Some? {
      ReplyFromGroq(svc, msgs, oracle, punct);
    } else if FoundText(MakeOpenRouterRequest(svc, msgs, oracle).0).Some? {
      ReplyFromOpenRouter(svc, msgs, oracle, punct);
    }
  }

  lemma ReplyFromGroq(svc: Service, msgs: seq<AiMessage>, oracle: Oracle, punct: Sanitizer.PunctuationClass)
    requires svc.pool.Valid() && FoundText(MakeGroqRequest(svc, msgs, oracle)).Some?
    ensures var g := GenerateResponse(svc, msgs, oracle, punct);
      CleanedLastText(g.reply, g.trace, oracle, punct)
  {
    TextFromLastRequest(MakeGroqRequest(svc, msgs, oracle), oracle);
  }

  lemma ReplyFromOpenRouter(svc: Service, msgs: seq<AiMessage>, oracle: Oracle, punct: Sanitizer.PunctuationClass)
    requires svc.pool.Valid()
    requires FoundText(MakeGroqRequest(svc, msgs, oracle)).None?
    requires FoundText(MakeOpenRouterRequest(svc, msgs, oracle).0).Some?
    ensures var g := GenerateResponse(svc, msgs, oracle, punct);
      CleanedLastText(g.reply, g.trace, oracle, punct)
  {
    var conv := Conversation(svc.openRouterPrompt, msgs);
    var groq := MakeGroqRequest(svc, msgs, oracle);
    var open := MakeOpenRouterRequest(svc, msgs, oracle).0;
    OpenRouterStops(svc.openRouterModels, 0, conv, svc.pool, oracle);
    assert open == OpenRouterFrom(svc.openRouterModels, 0, conv, svc.pool, oracle).0;
    TextFromLastRequest(open, oracle);
    var tr := groq.trace + open.trace;
    assert tr[|tr| - 1] == open.trace[|open.trace| - 1];
  }

  /** The reply is the apology exactly when no request got a text answer. */
  lemma ApologyIffNoText(svc: Service, msgs: seq<AiMessage>, oracle: Oracle, punct: Sanitizer.PunctuationClass)
    requires svc.pool.Valid()
    ensures var g := GenerateResponse(svc, msgs, oracle, punct);
      g.reply == Apology <==> forall t :: 0 <= t < |g.trace| ==> !GotText(oracle, g.trace[t])
  {
    var g := GenerateResponse(svc, msgs, oracle, punct);
    ReplyFromLastAnswer(svc, msgs, oracle, punct);
    ApologyIsDistinct(punct);
    if g.reply == Apology {
      var conv := Conversation(svc.openRouterPrompt, msgs);
      var groq := MakeGroqRequest(svc, msgs, oracle);
      var open := MakeOpenRouterRequest(svc, msgs, oracle);
      Cascade(svc, msgs, oracle, punct);
      assert FoundText(groq).None? && FoundText(open.0).None?;
      OpenRouterStops(svc.openRouterModels, 0, conv, svc.pool, oracle);
      assert open.0 == OpenRouterFrom(svc.openRouterModels, 0, conv, svc.pool, oracle).0;
      NoTextInSweep(groq, oracle);
      NoTextInSweep(open.0, oracle);
      PrefixThenRest(groq.trace, open.0.trace);
    }
  }

  /** When every request fails, every Groq model is tried once and every
      OpenRouter model `min(3, K)` times, and the reply is the apology. */
  lemma Exhaustion(svc: Service, msgs: seq<AiMessage>, oracle: Oracle, punct: Sanitizer.PunctuationClass)
    requires svc.pool.Valid()
    requires forall req :: !oracle(req).Answered?
    ensures var g := GenerateResponse(svc, msgs, oracle, punct);
      && |g.trace| == |svc.groqModels| + |svc.openRouterModels| * AttemptsPerModel(|svc.pool.keys|)
      && g.reply == Apology
  {
    var conv := Conversation(svc.openRouterPrompt, msgs);
    var open := MakeOpenRouterRequest(svc, msgs, oracle);
    Cascade(svc, msgs, oracle, punct);
    OpenRouterStops(svc.openRouterModels, 0, conv, svc.pool, oracle);
    OpenRouterCount(svc.openRouterModels, 0, conv, svc.pool, oracle);
    assert open.0 == OpenRouterFrom(svc.openRouterModels, 0, conv, svc.pool, oracle).0;
    BudgetIsProduct(|svc.openRouterModels|, AttemptsPerModel(|svc.pool.keys|));
  }

  /** With no OpenRouter keys only Groq is asked. */
  lemma NoKeysOnlyGroq(svc: Service, msgs: seq<AiMessage>, oracle: Oracle, punct: Sanitizer.PunctuationClass)
    requires svc.pool.Valid() && |svc.pool.keys| == 0
    ensures var g := GenerateResponse(svc, msgs, oracle, punct);
      && g.trace == MakeGroqRequest(svc, msgs, oracle).trace
      && g.service == svc
  {
    OpenRouterWithoutKeys(svc, msgs, oracle);
    CascadeTrace(svc, msgs, oracle, punct);
    Cascade(svc, msgs, oracle, punct);
    var open := MakeOpenRouterRequest(svc, msgs, oracle);
    var conv := Conversation(svc.openRouterPrompt, msgs);
    assert open.1.pool == OpenRouterFrom(svc.openRouterModels, 0, conv, svc.pool, oracle).1;
    assert open.1.pool.keys == [] && open.1.pool.Valid();
  }
}
