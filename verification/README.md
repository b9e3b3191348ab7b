# ParlayProz chat: a Dafny model of the chat endpoint and the chat widget

This project models the two pieces of logic in the ParlayProz chat widget.

The first is the `POST /api/chat` handler (module `ChatRoute`). It does these steps:
- It validates the question and checks that the service credential is present.
- It picks the first generative model that initialises.
- It tags the last six history entries with four intent flags: pricing, features, signup and affiliate.
- It appends bracketed directives to the question, one per set flag, plus a conciseness directive when the history is long.
- It renders the last ten history entries with speaker labels chosen by position parity.
- It assembles the master prompt.
- It maps the upstream outcome to a response envelope: a trimmed answer with the detected flags, a fixed fallback for a blank answer, or a classified error.

The second is the widget page (module `ChatPage`). This covers the initial transcript, the text box, and the send handler. The send handler ignores blank input. Otherwise it appends the user's turn, clears the box, and later appends one bot reply. The reply is chosen by an ordered, case-insensitive keyword chain.

The JavaScript built-ins the code relies on are modelled in module `JsText`: `trim`, `toLowerCase` (ASCII letters only), `includes`, `slice(-n)` and `join`. The optional value type is in module `Wrappers`.

The upstream service is a parameter of the handler:
- `ready(name)` says whether a model name initialises.
- `complete(name, prompt)` is what the completion call yields, `Completed(text)` or `Threw(message)`.
- `hasKey` says whether the credential is configured.

The page's 500 ms reply timer is modelled as two steps. `SendMessage` schedules the reply. `DeliverReply` delivers the oldest scheduled reply. Timers with equal delays fire in the order they were set.

## Model

| member | source | states |
|---|---|---|
| JsText.Trim | src/app/api/chat/route.js:229 | the result is a slice of the input with only whitespace around it, and it neither starts nor ends with whitespace |
| JsText.IsBlank | src/app/api/chat/route.js:143 | a string is blank after trimming iff every character is ECMAScript whitespace |
| JsText.TrimEmptyIff | src/app/api/chat/route.js:235 | `trim()` yields "" exactly when the string is all whitespace |
| JsText.TrimIdempotent | src/app/api/chat/route.js:229 | trimming a trimmed string changes nothing |
| JsText.TrimNotBlank | src/app/api/chat/route.js:235-251 | a non-empty trimmed answer is not blank |
| JsText.Lower | src/app/page.tsx:30 | lower-casing keeps the length and maps each character through the ASCII letter map |
| JsText.LowerIdempotent | src/app/page.tsx:30 | lower-casing a lower-cased string changes nothing |
| JsText.LowerAppend | src/app/page.tsx:30 | lower-casing distributes over concatenation |
| JsText.ContainsIff | src/app/page.tsx:32 | `includes` holds iff the substring occurs at some position |
| JsText.ContainsWithin | src/app/page.tsx:32 | text added before or after a string never hides a substring it contains |
| JsText.Last | src/app/api/chat/route.js:72 | for n > 0, `slice(-n)` yields the last n elements, or all of them when there are fewer |
| JsText.LastIgnoresOlder | src/app/api/chat/route.js:200 | entries before a window-sized tail never reach `slice(-n)` |
| JsText.Join | src/app/api/chat/route.js:202 | `join` of no parts is ""; otherwise the result opens with the first part and closes with the last |
| JsText.JoinSnoc | src/app/api/chat/route.js:202 | joining one more part appends the separator and that part |
| ChatRoute.AnyMentions | src/app/api/chat/route.js:74-79 | `some` holds iff some entry, lower-cased, contains one of the keywords |
| ChatRoute.WindowMentions | src/app/api/chat/route.js:72-74 | a search over `slice(-6)` finds a mention iff one of the last six entries of the full history has one |
| ChatRoute.AnalyzeContext | src/app/api/chat/route.js:71-101 | each of the four flags is set iff one of the last six entries mentions one of that flag's keywords |
| ChatRoute.PricingKeywordsSpelledOut | src/app/api/chat/route.js:74-79 | pricing is set iff a recent entry, lower-cased, contains "cost", "price" or "$" |
| ChatRoute.IntentIgnoresOlder | src/app/api/chat/route.js:72 | entries before the last six never change any flag |
| ChatRoute.IntentDependsOnWindowOnly | src/app/api/chat/route.js:72 | two histories that agree on their last six entries get the same flags |
| ChatRoute.DirectiveText | src/app/api/chat/route.js:108-132 | every directive text is non-empty |
| ChatRoute.AddIfMembers | src/app/api/chat/route.js:108-110 | one conditional step adds exactly its directive, and only when its condition holds |
| ChatRoute.DirectivesSelected | src/app/api/chat/route.js:104-135 | each flag's directive is present iff its flag is set, and the conciseness directive iff the full history is longer than 8 |
| ChatRoute.AddIfKeepsOrder | src/app/api/chat/route.js:108-132 | a step that adds a later-ranked directive keeps the rank order |
| ChatRoute.DirectivesInRankOrder | src/app/api/chat/route.js:104-135 | the directives come in the order pricing, features, signup, affiliate, conciseness |
| ChatRoute.RenderSnoc | src/app/api/chat/route.js:109-110 | rendering one more directive appends its text |
| ChatRoute.RenderEmptyIff | src/app/api/chat/route.js:104-135 | the directives render to "" iff none is selected |
| ChatRoute.AppendIfRenders | src/app/api/chat/route.js:108-111 | one `if (flag) enhancedPrompt += text` step keeps the prompt equal to the question followed by the selected directives |
| ChatRoute.AppendChainRenders | src/app/api/chat/route.js:105-134 | five conditional appends yield the question followed by the rendering of the directives they select |
| ChatRoute.EnhancePrompt | src/app/api/chat/route.js:104-135 | after the five conditional appends, the prompt equals the base question followed by the selected directives' texts, in rank order |
| ChatRoute.EnhancedQuestionShape | src/app/api/chat/route.js:104-135 | the base question is a prefix, and the question is returned unchanged iff no flag is set and the history has at most 8 entries |
| ChatRoute.ConciseDirectiveLast | src/app/api/chat/route.js:129-132 | with more than 8 history entries the prompt ends with the conciseness directive |
| ChatRoute.LabelLines | src/app/api/chat/route.js:201 | one line per entry, in order, each labelled by its index parity |
| ChatRoute.HistoryLines | src/app/api/chat/route.js:199-202 | at most 10 lines, line i is the label for i's parity, ": " and the i-th of the last ten entries |
| ChatRoute.LabelAlternates | src/app/api/chat/route.js:201 | consecutive lines carry different labels |
| ChatRoute.LabelFlipsWhenWindowSlides | src/app/api/chat/route.js:199-202 | with a full window, one more entry moves each surviving entry up one line and flips its speaker label |
| ChatRoute.FormatHistory | src/app/api/chat/route.js:199-202 | the rendered history is "" iff the history is empty, and it opens with the first labelled line and closes with the last |
| ChatRoute.MasterPrompt | src/app/api/chat/route.js:205-212 | the persona opens the prompt, the rendered history and enhanced question sit at fixed places, and the response cue closes it |
| ChatRoute.BuildPrompt | src/app/api/chat/route.js:189-212 | the prompt sent upstream holds the persona, the rendered history and the question enhanced with the history's intent flags at the master prompt's places |
| ChatRoute.PromptIgnoresOlder | src/app/api/chat/route.js:189-212 | entries before the last ten never change the prompt sent upstream |
| ChatRoute.FirstReady | src/app/api/chat/route.js:169-178 | the index of the first model name that initialises, or none iff no name does |
| ChatRoute.SelectModel | src/app/api/chat/route.js:165-186 | the loop picks the first initialising model in priority order, and no model iff none initialises |
| ChatRoute.Categorize | src/app/api/chat/route.js:273-289 | "API key" wins, then "quota"/"rate limit", then "network"/"timeout", else generic |
| ChatRoute.KindStatus | src/app/api/chat/route.js:271-288 | every category's status is an error status: 429, 500, 502 or 503 |
| ChatRoute.KindMessage | src/app/api/chat/route.js:269-287 | no category's user message is blank |
| ChatRoute.ClassifyError | src/app/api/chat/route.js:269-289 | the overwritten status and message are those of the error's category |
| ChatRoute.CategorizeEscalates | src/app/api/chat/route.js:273-289 | wrapping an error message in more text never lowers its category's precedence |
| ChatRoute.StatusDeterminesMessage | src/app/api/chat/route.js:269-289 | distinct categories have distinct statuses, so the status determines the message |
| ChatRoute.ConsInKeyOrder | src/app/api/chat/route.js:255-257 | putting a key before keys declared after it keeps declaration order |
| ChatRoute.SetKeys | src/app/api/chat/route.js:255-257 | `filter` keeps exactly the keys whose flag is set, and keeps their order |
| ChatRoute.DetectedFlags | src/app/api/chat/route.js:255-257 | `contextDetected` holds exactly the set flags, in declaration order |
| ChatRoute.FallbackNotBlank | src/app/api/chat/route.js:235-243 | the blank-answer fallback is not blank |
| ChatRoute.Respond | src/app/api/chat/route.js:228-298 | the status is 200, 429, 500, 502 or 503; an error gives its category's status and message with the support fallback; a blank answer gives 200 with the fixed fallback and no metadata; otherwise 200 with the trimmed answer and the detected flags |
| ChatRoute.RespondDependsOnIntent | src/app/api/chat/route.js:250-257 | the history reaches the response only through its intent flags |
| ChatRoute.Generate | src/app/api/chat/route.js:163-259 | no initialising model gives 503; otherwise the first initialising model is sent the prompt built from the question and history, and its outcome is mapped by `Respond` |
| ChatRoute.Handle | src/app/api/chat/route.js:138-298 | a blank question gives 400 before anything else; a missing key gives 500; no model gives 503; otherwise the envelope is `Respond`'s mapping of what the first initialising model returns for the prompt built from the question and `convHistory` (empty when absent); status 200 iff an answer, and an answer is never blank |
| ChatRoute.HandleDefaultsHistory | src/app/api/chat/route.js:140 | a request without `convHistory` is answered exactly as one with an empty history |
| ChatRoute.HandleIgnoresOlder | src/app/api/chat/route.js:189-212 | history entries before the last ten change neither the prompt nor the response |
| ChatPage.TopicOf | src/app/page.tsx:30-48 | the chosen branch matches the lower-cased input, and no earlier branch matches |
| ChatPage.ReplyText | src/app/page.tsx:28-48 | the default text is sent exactly for the unmatched branch |
| ChatPage.Reply | src/app/page.tsx:28-48 | the reply is "I'm not sure how to respond to that." iff no branch's keywords occur in the lower-cased input |
| ChatPage.TopicDependsOnLower | src/app/page.tsx:30 | inputs with equal lower-cased forms take the same branch |
| ChatPage.TopicIgnoresCase | src/app/page.tsx:30-48 | an input and its lower-cased form take the same branch and get the same reply |
| ChatPage.SubstringHiGreets | src/app/page.tsx:32-33 | any input containing "hi" in any letter case gets the greeting, whatever else it contains |
| ChatPage.NoKeywordDefault | src/app/page.tsx:28 | with no keyword present the reply is "I'm not sure how to respond to that." |
| ChatPage.ChatWidget.EveryTurnAnswered | src/app/page.tsx:7-55 | once every scheduled reply is delivered, there is one bot turn per user turn plus the welcome message |
| ChatPage.ChatWidget.constructor | src/app/page.tsx:7-10 | the transcript is the welcome bot message alone, and the text box is empty |
| ChatPage.ChatWidget.SetInput | src/app/page.tsx:152 | typing replaces the text box and changes nothing else |
| ChatPage.ChatWidget.SendMessage | src/app/page.tsx:19-55 | a blank input changes nothing; otherwise the user's turn is appended after all messages, the box is cleared, and a reply for that input is scheduled |
| ChatPage.ChatWidget.DeliverReply | src/app/page.tsx:27-52 | exactly one bot message with the reply for the captured input is appended after all existing messages |

## Left out

- The generative-text client (construction, `getGenerativeModel`, `generateContent`) and its generation parameters are left out. They are foreign calls, represented by the parameters `ready` and `complete`.
- `request.json()` parsing and `Response.json` serialisation are left out. A request whose body is not JSON, or whose `question` is missing or not a string, is not modelled: `Request.question` is always a string. A non-string history entry is not modelled either.
- An exception thrown before the upstream call (a body that fails to parse, say) is not modelled. The catch block is reached only through `Threw`.
- The `metadata.responseTime` (from `Date.now()`) and `metadata.model` fields are left out, and so is all `console` logging. `Answer.contextDetected` stands for the metadata object.
- `contextDetected` holds `Flag` values. `Key` gives each one's JSON spelling.
- The persona prompt is an opaque constant. Only its first line is kept.
- `toLowerCase` is modelled on ASCII letters only. Other Unicode case mappings are not modelled.
- JavaScript strings are UTF-16 code units, while the model's strings are Unicode scalar values. A lone surrogate, which a JSON escape can produce, has no counterpart here. No modelled behaviour depends on it: every keyword is ASCII and every whitespace character is in the Basic Multilingual Plane.
- Message `id`s (from `Date.now()`), the 500 ms delay as time, and React's state scheduling are left out. So is the stale `messages` closure in `setMessages([...messages, userMessage])`. The model appends to the current transcript, as the functional update of the bot turn does.
- JSX rendering, styling, the iframe `postMessage` effect, the open/close toggle and `handleKeyPress` are left out. They are UI plumbing.
