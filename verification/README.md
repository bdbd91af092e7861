# Jarvis chat and image assistant: a Dafny model of its core

This project models the server and client logic of a small Next.js assistant.
The assistant answers chat messages in Russian through a provider cascade and
generates images through ClipDrop.

- **Chat reply cascade** (`services/aiService.ts`). Groq is tried with each of its models in order, with one key. OpenRouter is tried only when Groq produced no usable text. It goes through each model with up to `min(3, K)` of the K comma-separated keys, rotated by a cursor kept on the service. Any text reply is cleaned: only Cyrillic, whitespace, digits and punctuation are kept, whitespace runs are collapsed and the result is trimmed. A cleaned reply shorter than 10 units is replaced by a fixed greeting. When both providers fail, the reply is a fixed apology.
- **Chat route** (`app/api/chat/route.ts`). It answers 400 when `messages` is missing or is not an array. It answers 500 when reading the request throws. Otherwise it maps each entry to a `user` or `assistant` message and answers 200 with `{ response }`.
- **Image route** (`app/api/generate-image/route.ts`). It validates the prompt and checks the ClipDrop key. It then calls ClipDrop once and maps each non-ok status to a user-facing message. A 402 gets a 200 fallback carrying a mock SVG data URL. Success gives a base64 data URL of the returned image.
- **ClipDrop service** (`services/clipdropService.ts`). It covers text-to-image and image variations. A missing key throws; every other failure is returned as `{ error }`.
- **Auth modal** (`components/AuthModal.tsx`). It covers the password-strength score and its label, and the editing of one form field.
- **Auth context** (`contexts/AuthContext.tsx`). The session is the user, the authenticated flag and the stored copy. The model covers login, register and logout, loading the session on mount, and the avatar initials.
- **Chat view** (`components/Chat.tsx`). It covers one submit cycle: append the user's entry, send the transcript, then append the answer or the error text.
- **Typewriter** (`components/TypewriterText.tsx`). Characters are revealed one timer tick at a time, and the cursor blinks while typing and is hidden once typing completes.

The outside world is represented by values the model receives as parameters:
- each provider request is a function from the request to its reply (an oracle);
- each ClipDrop endpoint is a function from the call to the upstream answer;
- the chat server is a function from the request body to the outcome;
- base64, UTF-8, JSON stringify/parse and the Unicode punctuation class are function parameters.

Every request a component makes is returned in a trace, so that ordering, counts and short-circuiting can be stated.

Files:
- `base.dfy`, `strings.dfy`, `js.dfy`, `http.dfy` and `media.dfy` hold the shared vocabulary: `Option`, JavaScript string operations, JSON values with truthiness, JSON responses, and data URLs.
- `keyrotation.dfy`, `sanitizer.dfy` and `aiservice.dfy` model the service.
- `chatroute.dfy` and `imageroute.dfy` model the two routes.
- `clipdrop.dfy`, `authmodal.dfy`, `authcontext.dfy`, `chatview.dfy` and `typewriter.dfy` model one source file each.

## Model

| member | source | states |
|---|---|---|
| Strings.Split | services/aiService.ts:12 | `split(',')`: the pieces joined by the separator give back the input, and no piece contains the separator |
| Strings.SplitJoin | contexts/AuthContext.tsx:42 | splitting a join of separator-free pieces gives back those pieces |
| Strings.TrimNoEdgeSpace | services/aiService.ts:169 | `trim()` leaves no whitespace at either end |
| Strings.TrimVisible | services/aiService.ts:169 | `trim()` removes only whitespace: the non-whitespace content is unchanged |
| Strings.TrimEmptyIff | components/Chat.tsx:22 | the trimmed input is empty exactly when the input is all whitespace |
| Strings.Utf16Length | components/AuthModal.tsx:29 | `length` counts UTF-16 units: between one and two per character |
| Strings.Utf16LengthAppend | components/AuthModal.tsx:29 | the UTF-16 length of a concatenation is the sum of the lengths |
| Strings.DecimalRoundTrip | app/api/generate-image/route.ts:85 | the decimal rendering of a status reads back as that status |
| KeyRotation.FromEnvironment | services/aiService.ts:12 | the key list is the comma-separated pieces of the variable, none containing a comma, and is empty only when the variable is unset; the cursor starts at 0 |
| KeyRotation.NextKey | services/aiService.ts:16-24 | fails exactly when there are no keys; otherwise returns the key at the cursor and moves the cursor to `(cursor + 1) % K` with the keys unchanged |
| KeyRotation.AttemptsPerModel | services/aiService.ts:53 | `min(3, K)`: at most 3 and at most K, positive with any key, exactly 3 with three or more keys |
| KeyRotation.SlotIsMod | services/aiService.ts:22 | `t` rotations from cursor `c` land on key `(c + t) % K` |
| KeyRotation.EveryKeyWithinOneRound | services/aiService.ts:21-22 | every key is reached within K consecutive rotations from any cursor |
| AiService.NewService | services/aiService.ts:11-14 | the Groq key is the variable or `''`, the OpenRouter pool is read from its variable, and the cursor starts at 0 |
| AiService.Conversation | services/aiService.ts:113 | the system prompt followed by the caller's messages unchanged |
| AiService.GroqSweep | services/aiService.ts:123-161 | one request per model in list order, all with the Groq key and the whole conversation; it stops at the first answer carrying a message and tries every model when none does |
| AiService.GenerateResponse | services/aiService.ts:179-196 | the reply is never empty and is the apology, the greeting or a well-formed cleaned text; only the cursor of the service changes and the keys are kept |
| AiServiceProofs.RoundIsDiv | services/aiService.ts:52-53 | attempt `a` with `p` attempts per model belongs to model `a / p` |
| AiServiceProofs.OpenRouterStops | services/aiService.ts:76-90 | the OpenRouter loops stop at the first answer with a message; non-ok statuses, bad payloads and thrown errors go on to the next attempt |
| AiServiceProofs.OpenRouterCount | services/aiService.ts:52-53 | at most `models * min(3, K)` requests, and exactly that many when no answer is found |
| AiServiceProofs.OpenRouterShape | services/aiService.ts:57-73 | every OpenRouter request carries the whole conversation |
| AiServiceProofs.OpenRouterKeyOrder | services/aiService.ts:55 | attempt `t` uses the key `t` places after the starting cursor |
| AiServiceProofs.OpenRouterCursor | services/aiService.ts:22 | afterwards the cursor stands one place after the last key used |
| AiServiceProofs.OpenRouterModelOrder | services/aiService.ts:52-66 | attempt `t` goes to model `t / min(3, K)`, so models are visited in list order |
| AiServiceProofs.OpenRouterWithoutKeys | services/aiService.ts:53 | with no keys the inner loop never runs: no request is made and no text is found |
| AiServiceProofs.OpenRouterKeyRotation | services/aiService.ts:16-24 | each OpenRouter request uses the key at `(cursor + t) % K`, and the service's cursor advances by the number of requests |
| AiServiceProofs.OpenRouterModelRotation | services/aiService.ts:52-66 | request `t` goes to model `t / min(3, K)`, which always exists |
| AiServiceProofs.ApologyIsDistinct | services/aiService.ts:193 | the apology is neither the greeting nor a well-formed cleaned reply, so the three kinds of reply can be told apart |
| AiServiceProofs.GroqFirst | services/aiService.ts:181-182 | the first request always goes to Groq's first model with the Groq key |
| AiServiceProofs.ShortCircuit | services/aiService.ts:182-183 | a text answer from the first Groq model is the only request made |
| AiServiceProofs.GroqRequestsFirst | services/aiService.ts:123-142 | the first requests go to Groq, one per model in list order, all with the Groq key |
| AiServiceProofs.OpenRouterOnlyAfterGroq | services/aiService.ts:184-189 | an OpenRouter request is made only after every Groq model failed, and no Groq request follows it |
| AiServiceProofs.ConversationEverywhere | services/aiService.ts:27-113 | every request, to either provider, carries that provider's system prompt followed by the caller's messages, unchanged |
| AiServiceProofs.NoTextBeforeLast | services/aiService.ts:151-153 | no request before the last got a text answer |
| AiServiceProofs.ReplyFromLastAnswer | services/aiService.ts:182-190 | any reply other than the apology is the cleaned text of the answer to the last request |
| AiServiceProofs.ReplyFromGroq | services/aiService.ts:182-183 | when Groq finds text, the reply is that text cleaned |
| AiServiceProofs.ReplyFromOpenRouter | services/aiService.ts:188-190 | when only OpenRouter finds text, the reply is that text cleaned |
| AiServiceProofs.ApologyIffNoText | services/aiService.ts:191-194 | the reply is the apology exactly when no request got a text answer |
| AiServiceProofs.Exhaustion | services/aiService.ts:52-94 | when every request fails: each Groq model once, then `models * min(3, K)` OpenRouter requests, then the apology |
| AiServiceProofs.NoKeysOnlyGroq | services/aiService.ts:53 | with no OpenRouter keys only Groq requests are made |
| Sanitizer.Filter | services/aiService.ts:167 | every character left is Cyrillic, whitespace, a digit or punctuation |
| Sanitizer.FilterVisible | services/aiService.ts:167 | the non-whitespace content left is exactly the allowed non-whitespace characters of the input, in order |
| Sanitizer.Collapse | services/aiService.ts:168 | no two adjacent whitespace characters remain, every whitespace character left is a blank, the result starts with a blank exactly when the input starts with whitespace, and the non-whitespace content is unchanged |
| Sanitizer.CollapseJoinsWords | services/aiService.ts:168-169 | collapsing then trimming gives the words of the text (its maximal non-whitespace runs), in order, joined by single blanks |
| Sanitizer.CleanJoinsWords | services/aiService.ts:166-169 | the cleaned reply is the words of the filtered text, in order, joined by single blanks |
| Sanitizer.CleanShape | services/aiService.ts:166-169 | the cleaned text has only allowed characters, no edge whitespace, single blanks, and the allowed content of the input |
| Sanitizer.CleanSlice | services/aiService.ts:169 | trimming keeps each of those shape properties |
| Sanitizer.GreetingIsNotWellFormed | services/aiService.ts:173 | the greeting contains characters the filter removes, so it is never a cleaned reply |
| Sanitizer.Validate | services/aiService.ts:164-177 | the greeting is chosen exactly when the words of the filtered text, joined by single blanks, are shorter than 10 UTF-16 units; otherwise the result is that joined text; the result is the greeting or a well-formed cleaned reply, never both; at least 10 allowed non-whitespace characters never give the greeting |
| Media.MimeOrPng | app/api/generate-image/route.ts:114 | the blob's type, or `image/png` when it is empty; never empty |
| Media.ParseDataUrlRoundTrip | app/api/generate-image/route.ts:114 | a data URL reads back as its type and base64 payload |
| ChatRoute.Convert | app/api/chat/route.ts:16-19 | an entry maps to `user` exactly when `isUser` is truthy, otherwise to `assistant`; the content is the entry's `text`; `null` or `undefined` entries throw |
| ChatRoute.ConvertAll | app/api/chat/route.ts:16-19 | the array maps element by element in order, and fails exactly when some entry would throw |
| ChatRoute.Post | app/api/chat/route.ts:4-32 | 400 exactly when the body is a non-null value whose `messages` is missing or not an array; 200 exactly when it is an array whose entries all convert; 500 otherwise (an unreadable or `null` body, a `null` entry); no request is made and the cursor is kept on 400 and 500 |
| ChatRoute.Reply | app/api/chat/route.ts:22-24 | status 200 with a body whose only field is `response`, holding the cascade's non-empty reply |
| ChatRoute.PostForwards | app/api/chat/route.ts:16-24 | a convertible body gives 200 with the cascade's reply to the converted messages |
| ImageRoute.StatusMessage | app/api/generate-image/route.ts:67-86 | 402, 401, 429 and 400 get their fixed messages; any other status gets the unavailable prefix followed by the status and the status text |
| ImageRoute.StatusMessageIdentifiesStatus | app/api/generate-image/route.ts:71-86 | different statuses always give different messages |
| ImageRoute.DefaultMessagesDiffer | app/api/generate-image/route.ts:85 | two different statuses outside the fixed four give different messages |
| ImageRoute.FixedMessagesDiffer | app/api/generate-image/route.ts:72-83 | the four fixed messages are distinct and differ from the default form |
| ImageRoute.Caption | app/api/generate-image/route.ts:21 | a prompt of at most 40 characters is kept; a longer one is cut to 40 followed by `...` |
| ImageRoute.MockImageUrl | app/api/generate-image/route.ts:4-30 | an SVG data URL that reads back as the base64 of the frame around the caption |
| ImageRoute.Answer | app/api/generate-image/route.ts:67-126 | 402 gives 200 with the error, `fallback` and a mock URL; another non-ok status gives 500 with its message; success gives 200 with `success` and the image data URL; a failed read gives 500 |
| ImageRoute.Post | app/api/generate-image/route.ts:32-127 | 400 exactly when the body is a non-null value whose prompt is missing, empty or not a string; an unreadable or `null` body gives 500; a missing or empty key gives 500 with no call; otherwise exactly one call, carrying the key and the prompt, answered as `Answer` says |
| ImageRoute.FallbackOnlyFor402 | app/api/generate-image/route.ts:91-105 | `fallback` appears only when the upstream status was 402, and then the status is 200 |
| ClipDropService.NewService | services/clipdropService.ts:9-11 | the key is the variable, or `''` when it is unset |
| ClipDropService.Caught | services/clipdropService.ts:57-60 | `{ error }` with the thrown message, or `Unknown error` for a non-`Error` |
| ClipDropService.NonOkDetail | services/clipdropService.ts:34-41 | the body text when it is readable and non-empty, else `HTTP <status>` |
| ClipDropService.GenerateImage | services/clipdropService.ts:13-61 | throws exactly when the key is empty, and then makes no call; otherwise exactly one text-to-image call, and the response holds exactly one of `url` and `error`: a non-ok status gives its detail, an ok status with a readable blob gives the data URL, an unreadable blob or a rejected call gives the caught error |
| ClipDropService.PromptField | services/clipdropService.ts:71-73 | the prompt is sent exactly when it is a non-empty string |
| ClipDropService.GenerateImageVariations | services/clipdropService.ts:63-97 | the same key check; one reimagine call with the image and the optional prompt; an error carrying the status, a data URL typed with the blob's own type, or the caught error for an unreadable blob or a rejected call |
| ClipDropService.StatusInError | services/clipdropService.ts:83-85 | the status reads back from the error text |
| ClipDropService.GeneratedUrlReadsBack | services/clipdropService.ts:54 | a successful URL reads back as the image's type and base64 payload |
| ClipDropService.SameImageAsRoute | services/clipdropService.ts:54 | the service and the image route build the same data URL from the same ClipDrop answer |
| AuthModal.Strength | components/AuthModal.tsx:27-34 | 25 points per test passed, so the score is one of 0, 25, 50, 75 or 100; 0 exactly when no test passes, 100 exactly when all pass |
| AuthModal.EmptyScoresZero | components/AuthModal.tsx:27-34 | the empty password scores 0 |
| AuthModal.OneMoreCriterion | components/AuthModal.tsx:29-32 | passing one more test, with the others unchanged, adds exactly 25 |
| AuthModal.AppendKeepsCriterion | components/AuthModal.tsx:29-32 | every test passed is still passed after text is appended |
| AuthModal.AppendNeverLowers | components/AuthModal.tsx:27-34 | typing more never lowers the score |
| AuthModal.LabelByCriteria | components/AuthModal.tsx:167 | weak with at most one test passed, medium with exactly two, strong with three or four |
| AuthModal.LabelTextsDiffer | components/AuthModal.tsx:167 | the three label texts are distinct |
| AuthModal.HandleInputChange | components/AuthModal.tsx:49-54 | the field takes the value and every other field is unchanged; the field's error is blanked only if it was set; other errors are unchanged |
| AuthModal.InputChangeIdempotent | components/AuthModal.tsx:49-54 | repeating the same edit changes nothing more |
| AuthModal.StrengthFollowsPasswordField | components/AuthModal.tsx:36 | after a password edit the displayed strength is the strength of the typed value |
| AuthContext.Initial | contexts/AuthContext.tsx:23-24 | no user, not authenticated, consistent |
| AuthContext.Initials | contexts/AuthContext.tsx:42 | every initial is the first character of some part |
| AuthContext.InitialsOfNonEmpty | contexts/AuthContext.tsx:42 | with non-empty parts there is one initial per part, in order |
| AuthContext.Avatar | contexts/AuthContext.tsx:41-44 | at most two characters, each the upper case of the first character of some word |
| AuthContext.AvatarOfTwoWords | contexts/AuthContext.tsx:41-44 | a two-word name gives the upper-cased first letters of both words |
| AuthContext.UserNameAvatar | contexts/AuthContext.tsx:54-56 | the demo user's avatar is `UN` |
| AuthContext.SignIn | contexts/AuthContext.tsx:59-61 | sets the user and the flag and stores the stringified user |
| AuthContext.Login | contexts/AuthContext.tsx:46-66 | succeeds exactly when email and password are non-empty, signing in the demo user with that email; on failure nothing changes |
| AuthContext.Register | contexts/AuthContext.tsx:68-88 | succeeds exactly when all three fields are non-empty, signing in a user with that name and email; on failure nothing changes |
| AuthContext.Logout | contexts/AuthContext.tsx:90-94 | no user, not authenticated, nothing stored |
| AuthContext.MountLoadAsWritten | contexts/AuthContext.tsx:27-39 | the mount effect as written: any parse that succeeds sets the user to the parsed value and the flag to true; a failed parse removes the stored value |
| AuthContext.SavedNullBreaksConsistency | contexts/AuthContext.tsx:31-33 | a stored `null` yields an authenticated session with no user |
| AuthContext.MountLoad | contexts/AuthContext.tsx:27-39 | the corrected mount effect: the flag holds exactly when a user was loaded, so the session is always consistent |
| AuthContext.MountLoadAgrees | contexts/AuthContext.tsx:27-39 | the corrected effect equals the written one whenever the written one is consistent |
| AuthContext.OperationsKeepConsistency | contexts/AuthContext.tsx:27-94 | the corrected mount (`MountLoad`), login, register and logout all leave the flag equal to "there is a user" |
| AuthContext.SignInSurvivesReload | contexts/AuthContext.tsx:59-61 | after sign-in, a reload restores the same user and authenticated flag |
| AuthContext.LogoutSurvivesReload | contexts/AuthContext.tsx:90-94 | after logout, a reload gives the initial state |
| ChatView.Encode | components/Chat.tsx:36-38 | the entry is sent with its `text` and `isUser` |
| ChatView.RequestBody | components/Chat.tsx:36-38 | the body's `messages` is the whole transcript, in order |
| ChatView.Submit | components/Chat.tsx:20-28 | nothing happens exactly when the input is blank or a request is in flight; otherwise the trimmed text is appended as a user entry, the input is cleared and loading starts |
| ChatView.AnswerOf | components/Chat.tsx:41-51 | an answer exists exactly for an ok response whose body has a truthy `response` |
| ChatView.Complete | components/Chat.tsx:47-60 | exactly one non-user entry is appended (the answer, or the fixed error text) and loading stops |
| ChatView.HandleSubmit | components/Chat.tsx:20-61 | a blank input or a request in flight changes nothing; otherwise the user's entry and then one answer entry are appended, the input is cleared and loading ends |
| ChatView.AppendOnly | components/Chat.tsx:26-57 | submits never edit or drop an earlier entry |
| ChatView.Transcript | app/api/chat/route.ts:16-19 | the route's reading of the transcript: user entries as `user`, others as `assistant`, same text, same order |
| ChatView.RouteReadsTranscript | app/api/chat/route.ts:8-19 | the route accepts every body the view sends and reads the transcript back from it |
| ChatView.RouteReplies | app/api/chat/route.ts:22-24 | the route answers the view's request with 200 and the cascade's non-empty reply |
| ChatView.RouteAnswers | components/Chat.tsx:45-48 | the view reads the cascade's reply from the route's answer |
| ChatView.SubmitThroughRoute | components/Chat.tsx:20-61 | end to end: the transcript gains the user's entry, then the cascade's reply to the transcript including it |
| Typewriter.Start | components/TypewriterText.tsx:12-14 | nothing typed, index 0, cursor shown, and the invariant holds |
| Typewriter.Tick | components/TypewriterText.tsx:17-21 | while characters remain, the next one is appended and the index advances; otherwise nothing changes |
| Typewriter.Finish | components/TypewriterText.tsx:24-29 | once everything is shown, the cursor is hidden and `onComplete` runs |
| Typewriter.Blink | components/TypewriterText.tsx:34-42 | while typing, only the cursor flag flips; otherwise nothing changes |
| Typewriter.StepKeepsInv | components/TypewriterText.tsx:16-42 | every event keeps the shown text equal to the first `index` characters |
| Typewriter.RunKeepsInv | components/TypewriterText.tsx:16-42 | any sequence of events keeps the invariant, and the shown text only grows |
| Typewriter.CursorFollowsFlag | components/TypewriterText.tsx:47 | the cursor is rendered exactly when its flag is set |
| Typewriter.TicksTypeEverything | components/TypewriterText.tsx:17-21 | `n` ticks type the next `n` characters; `|text|` ticks from the start type the whole text |
| Typewriter.HiddenAfterFinish | components/TypewriterText.tsx:24-42 | once typing is done and the cursor is hidden, no event brings the cursor back or changes the shown text |
| Typewriter.CompletionIsFinal | components/TypewriterText.tsx:24-29 | after completion the cursor is never rendered again, the whole text is shown, and `onComplete` has run |

## Left out

- HTTP itself is not modelled. Fetch, headers, request options and the provider URLs are left out: every upstream is a function from the request to its answer. The model records only which request was made.
- Model identifiers, the persona prompt text, temperature and the other numeric (floating-point) request options are left out. The model lists and the prompts are service fields. The two system prompts are separate fields because the source's two literals are not identical: the Groq one (services/aiService.ts:110) has a damaged character where the OpenRouter one (services/aiService.ts:39) reads `ожидают`.
- JSON serialisation is left out. Across the network the chat view's request body is handed to the route as a JSON value. `JSON.stringify` and `JSON.parse` of the stored user are function parameters, and their round trip is a precondition of `AuthContext.SignInSurvivesReload`.
- Base64, UTF-8 and `Buffer` are function parameters. The SVG markup around the caption is the `SvgFrame` parameter, and its validity as SVG is not modelled.
- The Unicode punctuation class `\p{P}` is a parameter of the sanitizer. The Cyrillic ranges, whitespace and digits are modelled explicitly.
- ImageRoute.Caption: the cut is counted in characters, whereas `substring(0, 40)` counts UTF-16 units, so the two differ only for prompts with characters outside the Basic Multilingual Plane.
- Typewriter.Tick: each tick reveals one character, whereas `text[currentIndex]` reveals one UTF-16 unit.
- AuthContext.Avatar: upper-casing covers ASCII and the basic Cyrillic letters only. The full Unicode case mapping is not modelled. The exact avatar is proved for two-word names (`AvatarOfTwoWords`) and for the demo name; for any other name the contract bounds the length and says where each character comes from.
- `Math.random` ids are a parameter.
- Timers are discrete events: the simulated login delay, the typewriter's tick, completion and blink. Their durations (`speed`, 500 ms, 530 ms) are left out.
- The typewriter's `text` is fixed for one instance. A change of the prop, which would restart the effects, is not modelled.
- `localStorage` is the `stored` field of the session.
- Logging is left out.
- Concurrency is left out: interleaved submits and React's batching of state updates. A submit is modelled as completing before the next one starts, which the loading flag enforces.
- Rendering is left out.
- The auth modal's `handleSubmit` is left out. It only waits on a timer and closes the modal.
- The tab switch and the password-visibility toggles are left out. They are plain UI state.
- The other parts of the application are not part of this model: the `test-ai` route, the page, the layout, `server.js`, Header, Sidebar, MainContent and the `useAuth` hook.
- The service's thrown `No OpenRouter API keys available` is not modelled separately. With no keys the loop bound `min(3, 0)` is 0, so it is never reached; `KeyRotation.NextKey` returns nothing in that case.

## Findings

| source | as written | input that shows it | evidently intended | confidence | as-written member | corrected member |
|---|---|---|---|---|---|---|
| contexts/AuthContext.tsx:31-33 | after any successful parse of the stored user, the user is set to the parsed value and `isAuthenticated` to true | a stored value of `null`: it parses to `null`, giving an authenticated session with no user | authenticated exactly when a user object was loaded | not executed; high | AuthContext.SavedNullBreaksConsistency | AuthContext.MountLoad |
