# fntx.ai trade-prompt protocol, modelled in Dafny

fntx.ai is a chat front end for an options-trading assistant. Around the
hosted language model it keeps a small, fully determined text protocol:

* **Trade-prompt parsing.** A reply is scanned by seven first-match
  extractors: action, ticker, expiry, delta, stop loss, take profit and
  option type. Each one fills one optional field of a trade record.
* **Two gates and two renderers.** The basic `PromptManager` treats a reply
  as a trade prompt only when it names a delta. The `EnhancedPromptManager`
  also accepts an expiry instead. Each renders a trade as a panel with
  defaults for missing parameters. The enhanced one adds a phase label and a
  phase-specific section.
* **The phase classifier.** An ordered decision list maps the user's message
  and the reply to one of five conversation phases.
* **Outcome bookkeeping.** `recordTradeOutcome` keeps a trade history and
  success/failure counters.
* **The session context store.** This is a dictionary from session id to
  context record. Records are created lazily from a default, updated by
  shallow merge and reset.
* **Relay bookkeeping**, shared by the mock and the real model relay:
  * the ten-entry conversation window;
  * the allow-listed context extractor;
  * the mock's canned-response selector;
  * the message list sent to the model.

How the model is built:

* **Patterns.** Each regular expression of the parser is its own matcher
  function (`Patterns.MatchAt`). `Patterns.Find` searches for the leftmost
  match. `PatternFacts` proves each matcher *exact*: it returns end `e` at
  position `p` precisely when a declarative description of the pattern holds
  for `s[p..e]`. That description covers word boundaries, ASCII case folding,
  digit and whitespace classes, and greedy runs.
* **Shared types.** The trade record is a datatype of optional strings. The
  rendered panel is a structured value, not HTML text.
* **Imperative parts.** The context store is a class over a `map`.
  `recordTradeOutcome` is a method of a class whose invariant ties the
  counters to the history. The history window and the extractor are methods
  proved against pure specification functions.
* **The model call.** The model is a function parameter of type
  `seq<Message> -> Completion`.

Some consequences are proved because the code behaves this way (see
`Samples`):

* The ticker extractor takes the *first* uppercase one-to-five-letter whole
  word and then checks it against the allow-list. The default, reject and
  modify replies of the mock all begin with the word "I". So none of them
  updates the session ticker, even though the reject reply names SPY later.
* The browser parses the whole reply for the trade card. So the default
  reply's parsed ticker is "I", not "SPY".

## Definitions

The functions that model the code, module by module. Each one is specified
by the lemmas and contracts named in the table below, at the same source lines.

* `Patterns.MatchAt` is the seven regular expressions of
  `fntx-ai_v3-main/js/enhancedPrompts.js:5-11` (the same as `fntx-ai_v3-main/js/prompts.js:5-11`),
  anchored at one position. `Patterns.Find` is a non-global `match`, returning group 1 of the leftmost match.
* `TradePrompt.ParseTradePrompt` is `parseTradePrompt` (`fntx-ai_v3-main/js/enhancedPrompts.js:25-56`,
  `fntx-ai_v3-main/js/prompts.js:15-47`). `TradePrompt.RenderPanel` is the header and parameter
  block of both `formatTradePrompt`s (`fntx-ai_v3-main/js/prompts.js:60-88`).
* `PromptManager.ContainsTradePrompt` is `fntx-ai_v3-main/js/prompts.js:50-57`, and
  `EnhancedPrompts.ContainsTradePrompt` is `fntx-ai_v3-main/js/enhancedPrompts.js:60-67`.
* `EnhancedPrompts.DeterminePhase` is `determinePhase` (`fntx-ai_v3-main/js/enhancedPrompts.js:70-82`).
  `EnhancedPrompts.Tally` is one step of `recordTradeOutcome`'s counter updates
  (`fntx-ai_v3-main/js/enhancedPrompts.js:194-203`). `EnhancedPrompts.MetricsOf` is the tally of a whole
  outcome sequence, against which the manager's invariant is stated.
* `Relay.TickerUpdate` is the allow-listed ticker step and `Relay.ContextUpdates` the whole of
  `extractContextFromResponse` (`server/services/mockDeepseek.js:98-132`, `server/services/deepseek.js:81-115`).
* `MockDeepseek.SelectResponse` is the keyword if-chain of `server/services/mockDeepseek.js:56-64`.
* `Deepseek.ContextLine` is the second system message of `server/services/deepseek.js:25`.

## Model

| member | source | states |
|---|---|---|
| Text.IncludesMeans | fntx-ai_v3-main/js/enhancedPrompts.js:71-78 | `includes(w)` holds exactly when `w` occurs at some position of the string |
| PatternFacts.WordExact | fntx-ai_v3-main/js/enhancedPrompts.js:5 | a bounded literal word matches at `p` ending at `e` exactly when it is spelled there case-insensitively between two word boundaries |
| PatternFacts.AlternativeExact | fntx-ai_v3-main/js/enhancedPrompts.js:5 | `\b(Buy\|Sell)\b` (and `Call\|Put`) matches at `p` with end `e` exactly when one of the two words, folded to lower case, stands there as a whole word |
| PatternFacts.TickerExact | fntx-ai_v3-main/js/enhancedPrompts.js:6 | the ticker group at `p` ends at `e` exactly when `s[p..e]` is 1 to 5 uppercase ASCII letters with word boundaries on both sides (case-sensitive) |
| PatternFacts.ExpiryExact | fntx-ai_v3-main/js/enhancedPrompts.js:7 | the expiry group is exactly a `dddd-dd-dd` run between word boundaries |
| PatternFacts.DecimalEndExact | fntx-ai_v3-main/js/enhancedPrompts.js:8 | greedy `\d+\.\d+` starting at `p` ends at `e` exactly when `s[p..e]` is digits, a point and digits, not followed by a further digit |
| PatternFacts.SpacedLiteralExact | fntx-ai_v3-main/js/enhancedPrompts.js:8 | `\s*word` after a group matches exactly when a whitespace run is followed by the word ignoring ASCII case |
| PatternFacts.DeltaExact | fntx-ai_v3-main/js/enhancedPrompts.js:8 | the delta group ends at `e` exactly when a decimal ends there and is followed by optional whitespace and "delta" in any case |
| PatternFacts.MultiplierExact | fntx-ai_v3-main/js/enhancedPrompts.js:9-10 | the stop-loss/take-profit group ends at `e` exactly when a decimal ends there followed by `x`, optional whitespace, the first word, optional whitespace and the second word |
| PatternFacts.MatchAtExact | fntx-ai_v3-main/js/enhancedPrompts.js:5-11 | for each of the seven patterns, the matcher at `p` returns `e` if and only if the declarative shape of that pattern holds for `s[p..e]` |
| PatternFacts.FindIsLeftmost | fntx-ai_v3-main/js/enhancedPrompts.js:29-54 | `match` finds nothing exactly when no position matches; otherwise its group is the capture at the leftmost matching position |
| PatternFacts.FindAtFirstMatch | fntx-ai_v3-main/js/enhancedPrompts.js:29-54 | conversely, the leftmost matching position determines the captured group |
| PatternFacts.FindCapture | fntx-ai_v3-main/js/prompts.js:15-47 | a captured group has its pattern's form (a decimal for the numeric fields, a date shape, an uppercase word, one of the two words) and is text copied from the input |
| PatternFacts.FindNonEmpty | fntx-ai_v3-main/js/prompts.js:15-47 | every captured group is non-empty, so a found field is truthy |
| TradePrompt.ParseTradePromptField | fntx-ai_v3-main/js/enhancedPrompts.js:25-56 | each of the seven fields is set exactly when its own matcher hits somewhere; it is then a non-empty capture of the right form at the first hit and copied from the text, independent of the other fields |
| TradePrompt.ParsedTruthy | fntx-ai_v3-main/js/prompts.js:61-63 | a parsed field is truthy exactly when its matcher found something |
| TradePrompt.RenderParsed | fntx-ai_v3-main/js/prompts.js:61-88 | a parsed reply renders exactly when action, ticker and option type are found; the panel then shows the captured action in its text and lower-cased as its style class, the ticker, the option type followed by " Option", and the captured values and otherwise the defaults 0.3, Next expiry, 2.5 and 0.2, with `x` after the multipliers |
| PromptManager.ContainsTradePromptParses | fntx-ai_v3-main/js/prompts.js:50-57 | the basic gate holds exactly when action, delta and option type are all parsed and stop loss or take profit is parsed |
| PromptManager.FormatTradePrompt | fntx-ai_v3-main/js/prompts.js:60-97 | the result is null exactly when action, ticker or option type is missing; otherwise it has no phase label and carries the three action buttons |
| EnhancedPrompts.ContainsTradePromptParses | fntx-ai_v3-main/js/enhancedPrompts.js:60-67 | the enhanced gate holds exactly when action and option type are parsed, delta or expiry is parsed, and stop loss or take profit is parsed |
| EnhancedPrompts.GateIsWeaker | fntx-ai_v3-main/js/enhancedPrompts.js:64 | for every text the basic gate implies the enhanced gate |
| Samples.GatesDiffer | fntx-ai_v3-main/js/enhancedPrompts.js:64 | on a reply with an expiry but no delta the enhanced gate holds and the basic one does not; the classifier still says decision, and the card is null because no ticker is found |
| EnhancedPrompts.PhaseOfName | fntx-ai_v3-main/js/enhancedPrompts.js:175-181 | the phase map is a fixed five-entry table: a found phase has that name, and an unknown name is missing from the table |
| EnhancedPrompts.FormatPhase | fntx-ai_v3-main/js/enhancedPrompts.js:174-184 | a known phase name shows its label; any other input shows "Analysis" |
| EnhancedPrompts.DeterminePhaseCases | fntx-ai_v3-main/js/enhancedPrompts.js:70-82 | execution exactly when the user message says accept; recommendation exactly when it says reject or modify but not accept; decision exactly when neither applies and the text is a trade prompt; follow-up exactly when none of those applies and the text says monitor or exit; analysis otherwise |
| EnhancedPrompts.DecisionParses | fntx-ai_v3-main/js/enhancedPrompts.js:75-76 | in the decision phase the parsed trade has action and option type, and delta or expiry |
| Samples.AcceptMessageExecutes | fntx-ai_v3-main/js/app.js:136-137 | the accept button's canned message puts any reply in the execution phase and makes the mock send its execution reply |
| Samples.RejectMessageRecommends | fntx-ai_v3-main/js/app.js:141-145 | the reject button's message, which mentions reject but not accept, puts any reply back in the recommendation phase and makes the mock send the alternative trade |
| Samples.ModifyMessageRecommends | fntx-ai_v3-main/js/app.js:148-152 | the modify button's message, which mentions modify but neither accept nor reject, puts any reply back in the recommendation phase and makes the mock send the modified trade |
| EnhancedPrompts.FormatTradePrompt | fntx-ai_v3-main/js/enhancedPrompts.js:85-171 | null exactly when action, ticker or option type is missing, for every phase; the label is the phase's display name; the buttons appear only for decision, execution steps only for execution, which quote the rendered stop loss and take profit, monitoring lists only for follow-up, and no section otherwise |
| EnhancedPrompts.OriginalIsDecisionPhase | fntx-ai_v3-main/js/enhancedPrompts.js:85-127 | the enhanced card in the decision phase is null exactly when the basic card is, and otherwise equals it apart from the phase label |
| EnhancedPrompts.FollowUpIsFixed | fntx-ai_v3-main/js/enhancedPrompts.js:144-164 | the monitoring criteria and exit conditions do not depend on the trade |
| EnhancedPrompts.RecordExtendsTally | fntx-ai_v3-main/js/enhancedPrompts.js:187-203 | recording one more outcome moves the metrics of the history by exactly one tally step |
| EnhancedPrompts.CountsBounded | fntx-ai_v3-main/js/enhancedPrompts.js:194-199 | successes plus failures never exceed the number of outcomes |
| EnhancedPrompts.WinRateBounds | fntx-ai_v3-main/js/enhancedPrompts.js:201-203 | the win rate lies between 0 and 100 |
| EnhancedPrompts.MetricsOfCounts | fntx-ai_v3-main/js/enhancedPrompts.js:194-203 | the metrics of a history count all trades, the `success` outcomes and the `failure` outcomes, and their sum never exceeds the total |
| EnhancedPrompts.EnhancedPromptManager.constructor | fntx-ai_v3-main/js/enhancedPrompts.js:14-21 | a new manager is in the analysis phase with an empty history and zero metrics |
| EnhancedPrompts.EnhancedPromptManager.RecordTradeOutcome | fntx-ai_v3-main/js/enhancedPrompts.js:187-206 | appends exactly one record; the total goes up by one; `success` increments only the successes and `failure` only the failures; the counter invariant is kept and the metrics are returned |
| EnhancedPrompts.EnhancedPromptManager.GeneratePerformanceSummary | fntx-ai_v3-main/js/enhancedPrompts.js:209-237 | on a consistent manager, "no history" exactly when the trade history is empty; otherwise the number of recorded trades, the counts of "success" and "failure" outcomes in the history, and the successes' percentage, between 0 and 100 |
| ContextManager.Merge | server/services/contextManager.js:41-44 | the merged record has the keys of both; every updated key takes the update's value (undefined included), and every other key keeps its value |
| ContextManager.MergeIdempotent | server/services/contextManager.js:41-44 | merging the same update twice equals merging it once |
| ContextManager.MergeTwice | server/services/contextManager.js:41-44 | two successive merges equal one merge of the combined update |
| ContextManager.AfterGet | server/services/contextManager.js:21-28 | after a get, the id is stored with its old record or the default; other sessions are unchanged; a known id leaves the store unchanged |
| ContextManager.AfterUpdate | server/services/contextManager.js:36-47 | after an update, the id is stored with the merge of its current record and the update; other sessions are unchanged |
| ContextManager.AfterReset | server/services/contextManager.js:54-57 | after a reset, the id holds the default record whatever it held before; other sessions are unchanged |
| ContextManager.GetIdempotent | server/services/contextManager.js:23-25 | a second get changes nothing |
| ContextManager.UpdateIdempotent | server/services/contextManager.js:41-44 | applying the same update twice gives the same store as once |
| ContextManager.ResetForgetsUpdate | server/services/contextManager.js:54-57 | a reset after an update leaves the same store as a reset alone |
| ContextManager.UpdateFreshSession | server/services/contextManager.js:36-44 | updating an unknown session merges into the default record |
| ContextManager.ContextStore.constructor | server/services/contextManager.js:3 | the store starts empty |
| ContextManager.ContextStore.GetContext | server/services/contextManager.js:21-28 | returns the stored record or the default and leaves the store as `AfterGet` describes |
| ContextManager.ContextStore.UpdateContext | server/services/contextManager.js:36-47 | returns the merged record and leaves the store as `AfterUpdate` describes |
| ContextManager.ContextStore.ResetContext | server/services/contextManager.js:54-57 | returns the default record and leaves the store as `AfterReset` describes |
| Relay.KeepLast | server/services/mockDeepseek.js:72-74 | the result keeps `min(n, length)` elements and is a suffix of the input |
| Relay.WindowedShape | server/services/mockDeepseek.js:67-74 | the new history holds the last `min(10, n+2)` entries of the old history followed by the new pair; the pair is last; nothing is dropped while everything fits |
| Relay.KeepLastAppend | server/services/mockDeepseek.js:72-74 | trimming before appending and trimming afterwards give the same window |
| Relay.HistoryAfterIsWindow | server/services/mockDeepseek.js:67-74 | after any sequence of exchanges starting from a history within the limit, the history is the last ten entries of the whole transcript |
| Relay.UpdatedHistory | server/services/deepseek.js:50-57 | the copy-push-splice sequence yields exactly the windowed history |
| Relay.AddField | server/services/mockDeepseek.js:102-129 | the update gains the key exactly when its match succeeded, holding the captured text there, and keeps every other key and value |
| Relay.UpdatesOf | server/services/mockDeepseek.js:98-132 | the updates have keys only among ticker, expiry, delta, stopLoss and takeProfit |
| Relay.UpdatesOfFields | server/services/mockDeepseek.js:98-132 | each key is present exactly when its field was found, holding that value |
| Relay.TickerUpdateMeaning | server/services/mockDeepseek.js:102-105 | the ticker is updated exactly when the first uppercase 1-5-letter whole word is SPY, AAPL, MSFT, GOOGL, AMZN or META, and then to that word, which is the client parser's ticker |
| Relay.ContextUpdatesMeaning | server/services/deepseek.js:81-115 | the extracted keys are among the five; the ticker follows the allow-list rule; expiry, delta, stop loss and take profit are present exactly when the client parser finds them, with the same values |
| Relay.ExtractContextFromResponse | server/services/mockDeepseek.js:98-132 | the step-by-step extraction equals the specification, and so depends on the response text only, never on the current context |
| Relay.RelayUpdate | server/services/mockDeepseek.js:79-85 | the returned context is the extracted updates plus `history`, which holds the windowed history and overrides any extracted key |
| Samples.RepliesOpenWithI | server/services/mockDeepseek.js:102-105 | the default reply parses with ticker "I" (its opening pronoun); the default, reject and modify replies set no ticker key in the context updates |
| Samples.RejectReplyNamesSpy | server/services/mockDeepseek.js:26 | at position 88 the reject reply holds SPY as an uppercase whole-word ticker match, and SPY is on the allow-list; it is never reached because the opening "I" matches first |
| Samples.RecommendationLineParses | server/services/mockDeepseek.js:5 | the recommendation line parses to Sell, SPY, 2025-06-20, 0.3, 2.5, 0.2 and Put, and passes both gates |
| MockDeepseek.RepliesDistinct | server/services/mockDeepseek.js:2-42 | the four canned replies are pairwise different |
| MockDeepseek.SelectResponseCases | server/services/mockDeepseek.js:56-64 | accept is checked first, then reject, then modify, all ignoring case, and the default reply is the fallback |
| MockDeepseek.GetChatCompletion | server/services/mockDeepseek.js:50-90 | the reply is the selected canned response, and the updated context is its extracted updates with the windowed history |
| Deepseek.StrikeRangeDefault | server/services/deepseek.js:25 | the context line shows `5%` when `strikeRange` is absent, undefined or empty, as the `||` fallback does |
| Deepseek.DefaultContextLine | server/services/deepseek.js:25 | for the default record, the context line reads "Ticker: AAPL, Expiry: 2025-05-16, Strike Range: 5%" after its prefix |
| Deepseek.BuildMessages | server/services/deepseek.js:21-35 | the messages are the system prompt, the context line, every history entry in order, and the user message last |
| Deepseek.GetChatCompletion | server/services/deepseek.js:18-73 | a failed model call is handed back as the error; otherwise the result is the reply with its extracted updates and the windowed history |

## Left out

- The DOM, the event listeners, `setTimeout` and the busy flag in `fntx-ai_v3-main/js/app.js` are left out. They are user-interface plumbing. Only the texts that the accept, reject and modify buttons send are modelled, as `Samples.AcceptMessage`, `Samples.RejectMessage` and `Samples.ModifyMessage`.
- The `fetch` calls, `localStorage` and the random session ids in `fntx-ai_v3-main/js/api.js` and `fntx-ai_v3-main/js/context.js` are left out. They are I/O and randomness.
- The Express handlers in `server/routes/api.js` are left out. They only sequence store calls around the model call.
- Record values are limited to strings, `undefined` and the history array. `POST /context/:sessionId` (server/routes/api.js:57-61) merges an arbitrary JSON body, so numbers, booleans, `null` and nested objects can reach a record and are then interpolated in the context line (`null` as "null", a falsy strike range replaced by "5%"); those values are not modelled.
- `server/test.js` is not part of this model. It is an HTTP script against a live server.
- The `openai.chat.completions.create` call is the parameter `complete`. Its exceptions are the `Failed` outcome. The request options (model name, temperature, token limit) are not modelled.
- `SYSTEM_PROMPT` from `server/services/enhancedPrompt.js` is the parameter `systemPrompt`. It is a constant with no logic.
- The panel is a structured value. The byte-exact HTML and its whitespace are not modelled.
- `EnhancedPrompts.EnhancedPromptManager.RecordTradeOutcome`: the win rate is an exact `real`, not a JavaScript float. The counters are unbounded naturals, not 64-bit floats.
- `EnhancedPrompts.EnhancedPromptManager.GeneratePerformanceSummary` reports the win rate as a number, not as its `toFixed(1)` text; the counters are shown unformatted in the source too.
- The ISO `timestamp` of a recorded outcome is a parameter, because it comes from the clock.
- Outcome and phase values other than strings are left out. The code would compare them with `===`, and they never equal a known name.
- `currentPhase` is kept as a field but is never updated. The code never updates it either.
- `toLowerCase()` is modelled as ASCII lower-casing. It agrees with JavaScript for the words looked up here: accept, reject, modify, monitor and exit.
- Strings are sequences of characters, not UTF-16 code units. The `/i` flag folds ASCII only. That matches JavaScript regular expressions without the `u` flag for these patterns.
- Keys inherited from `Object.prototype` in the phase map and the context store are not modelled.
- Object identity is not modelled: `getContext` returns the stored record object itself, which a caller may mutate; the model returns a value, so such aliased mutation is not captured. The shallow copy `{ ...DEFAULT_CONTEXT }` shares one history array with `DEFAULT_CONTEXT`, which is not captured either. Key order of the records is not modelled either.
- A `history` value that is not an array is treated as empty history. A `null` reply content is not modelled.
- The asynchronous structure and the `console` logging are left out.
