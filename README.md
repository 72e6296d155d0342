# Kaisen Assistant — a verified model of its core logic

Kaisen Assistant is a demo chat front end: a user types a request, a keyword
router picks one of four canned "agents" (Twitter Trends, Finance Agent,
Reminder Agent, Web Search) and answers with a fixed text, and agents that
need credentials are configured through a dialog whose values are kept,
base64-encoded JSON, in the browser's `localStorage`. A separate analyzer
turns a language model's reply into a trading recommendation.

This project models, in Dafny, the logic under that UI:

- `kaisen_assistant.dfy` — the agent registry, the keyword router
  (`handleAssistantResponse`'s if-chain) with an independent rule-table
  definition proved equal to it, and the chat session as a class whose
  methods are the send, reply-timer, speaking-timer, input and
  recording events.
- `config_dialog.dfy` — required-field validation, the error text, and the
  dialog as a class (open effect, input change, submit).
- `agent_config.dfy` — the field/definition datatypes and the static
  `AGENT_CONFIGS` table.
- `storage.dfy` — the namespaced store: `localStorage` is a
  `map<string, string>` field of a class; the store operations are also
  given as functions of the map, about which the properties are proved.
- `chat_message.dfy` — the id→name and id→icon lookups, the sender label
  and the badge, tied to the registry.
- `llm_analyzer.dfy` — the text-block concatenation loop, the extraction
  of the JSON span matched by `/\{[\s\S]*\}/`, the fallback to the default
  recommendation and the zero guard of the sentiment score.
- Support modules for the JavaScript built-ins the core relies on, each
  concrete so that round trips are proved, not assumed: `text.dfy`
  (`trim`, ASCII `toLowerCase`, `includes`, `join`), `js_object.dfy`
  (string-keyed objects as insertion-ordered entry lists), `base64.dfy`
  (`btoa`, and `atob` with the WHATWG forgiving-base64 decode; base64 is
  section 4 of RFC 4648), `json.dfy` (a JSON parser for all of RFC 8259
  and `JSON.stringify` of string-valued objects), `wrappers.dfy`
  (`Option`).

Operations that throw in JavaScript (`btoa` on a character above U+00FF,
`atob` on bad input, `JSON.parse` on bad text, the model API call) return
`None` in the model, and the callers follow the source's handling of each.
Whether `localStorage.setItem` throws because the quota is full is decided
by the browser, so it is a parameter of the save.

The router has no setup gate and reads no store; its keywords are exactly
those of components/kaisen-assistant.tsx:108-126.

## Model

| member | source | states |
|---|---|---|
| KaisenAssistant.RegistryIds | components/kaisen-assistant.tsx:35-64 | the registry holds exactly the ids twitter-agent, finance-agent, reminder-agent and search-agent, pairwise distinct |
| KaisenAssistant.MentionsAnyIff | components/kaisen-assistant.tsx:108-126 | a rule's keyword test holds iff some keyword of the rule occurs in the lower-cased input |
| KaisenAssistant.FirstMatchIsFirst | components/kaisen-assistant.tsx:107-129 | the rule-table router answers with the first rule that matches, and with the fallback exactly when none does |
| KaisenAssistant.RuleTests | components/kaisen-assistant.tsx:108-126 | rule j of the table tests exactly the keywords of the j-th branch of the if-chain |
| KaisenAssistant.RouteIsFirstMatch | components/kaisen-assistant.tsx:107-129 | the if-chain router equals the first-match search over the ordered rule table on every input |
| KaisenAssistant.RouteChoosesFirstCategory | components/kaisen-assistant.tsx:108-126 | the j-th agent is chosen iff one of its keywords occurs and no keyword of an earlier category does; its canned text comes with it |
| KaisenAssistant.TwitterWins | components/kaisen-assistant.tsx:108-111 | input mentioning "twitter" or "trend" goes to twitter-agent with the twitter text, whatever else it mentions |
| KaisenAssistant.FallbackIff | components/kaisen-assistant.tsx:127-128 | no agent is chosen iff no keyword occurs, and then the text is the fixed fallback |
| KaisenAssistant.RoutedAgentRegistered | components/kaisen-assistant.tsx:103-129 | every agent the router names is in the registry |
| KaisenAssistant.RouteIgnoresCase | components/kaisen-assistant.tsx:108-126 | routing the ASCII-lower-cased input gives the same reply |
| KaisenAssistant.ValidMessagesAppend | components/kaisen-assistant.tsx:91-142 | appending a well-formed message keeps the message list valid |
| KaisenAssistant.RouteIsRouterReply | components/kaisen-assistant.tsx:133-142 | the assistant message built from a routed reply is well formed |
| KaisenAssistant.Session.constructor | components/kaisen-assistant.tsx:25-71 | the chat starts with the greeting alone, an empty input, not recording, not speaking, no agent |
| KaisenAssistant.Session.SetInput | components/kaisen-assistant.tsx:263 | typing replaces the input and nothing else |
| KaisenAssistant.Session.HandleSendMessage | components/kaisen-assistant.tsx:79-101 | blank input changes nothing; otherwise exactly one user message with the untrimmed input and no agent is appended, the input is cleared, the agent is "processing", and a reply timer is queued holding the input as it was at send time |
| KaisenAssistant.Session.HandleAssistantResponse | components/kaisen-assistant.tsx:103-150 | the routed agent (possibly none) becomes active, exactly one assistant message with that agent and text is appended after the unchanged earlier ones, speaking starts and a speaking timer is queued |
| KaisenAssistant.Session.ReplyTimerFires | components/kaisen-assistant.tsx:98-100 | a reply timer routes the input it captured, not the current field, and leaves the queue without it |
| KaisenAssistant.Session.SpeakingTimerFires | components/kaisen-assistant.tsx:146-149 | the speaking timer ends speech and clears the active agent, changing nothing else |
| KaisenAssistant.Session.ToggleRecording | components/kaisen-assistant.tsx:152-155 | only the recording flag is negated |
| ConfigDialog.MissingFieldsAppend | components/agent-config-dialog.tsx:41-43 | validating a concatenation of field lists concatenates the results, so labels come in schema order |
| ConfigDialog.MissingFieldsMembership | components/agent-config-dialog.tsx:41-43 | a label is reported iff some required field with that label is absent or the empty string |
| ConfigDialog.NoneMissingIffAllFilled | components/agent-config-dialog.tsx:41-45 | nothing is reported iff every required field has a non-empty value |
| ConfigDialog.ErrorMessage | components/agent-config-dialog.tsx:46 | the error starts with "Please fill in the following required fields: " |
| ConfigDialog.ErrorNamesEachMissing | components/agent-config-dialog.tsx:45-47 | the error text contains every missing label |
| ConfigDialog.EmptyTwitterForm | components/agent-config-dialog.tsx:41-47 | an empty twitter form reports "API Key" and "API Secret" with the exact error text |
| ConfigDialog.WhitespaceTwitterForm | components/agent-config-dialog.tsx:42 | a twitter form of whitespace-only values passes, since the test is truthiness |
| ConfigDialog.FormFromSaved | components/agent-config-dialog.tsx:27-32 | the form is empty or the saved object of strings it came from |
| ConfigDialog.SavedObjectIsShown | components/agent-config-dialog.tsx:27-29 | a saved object of strings is loaded into the form exactly, entries in order |
| ConfigDialog.FormFromLoadedDistinct | components/agent-config-dialog.tsx:27-32 | whatever the store holds, the loaded form has distinct keys |
| ConfigDialog.ReopenShowsSaved | components/agent-config-dialog.tsx:25-51 | after saving a form with distinct Latin-1 keys and values, reopening shows exactly that form |
| ConfigDialog.Dialog.constructor | components/agent-config-dialog.tsx:22-23 | the dialog starts with an empty form and no error |
| ConfigDialog.Dialog.Open | components/agent-config-dialog.tsx:25-35 | opening loads the stored form for the agent id, or the empty form, and clears the error |
| ConfigDialog.Dialog.HandleInputChange | components/agent-config-dialog.tsx:56-62 | the form becomes `{...prev, [key]: value}`: the key reads the new value, every other key reads as before, the error is cleared |
| ConfigDialog.Dialog.HandleSubmit | components/agent-config-dialog.tsx:37-54 | with missing fields: the error lists them, nothing is saved, the dialog stays open; otherwise the form is saved under the agent id, onConfigured is called once and the dialog closes; a save that throws, because btoa rejects the form or setItem throws, changes nothing |
| ConfigDialog.Dialog.Close | components/agent-config-dialog.tsx:100-106 | Cancel closes the dialog and leaves the form, the error and the onConfigured count unchanged |
| AgentConfig.DefinedAgents | types/agent-config.ts:19-73 | the table defines exactly twitter-agent, finance-agent and search-agent, in that order; reminder-agent has none |
| AgentConfig.DefinitionIdsDistinct | types/agent-config.ts:21-54 | definition ids are pairwise distinct |
| AgentConfig.AllFieldsRequired | types/agent-config.ts:24-71 | every field of every definition is required |
| AgentConfig.FieldKeysDistinct | types/agent-config.ts:24-70 | field keys are distinct within each definition; twitter asks for api_key then api_secret |
| Storage.StorageKey | utils/storage.ts:3-17 | the key is the prefix "kaisen_agent_config_" followed by the agent id |
| Storage.StorageKeyInjective | utils/storage.ts:17-37 | two agent ids share a key iff they are equal |
| Storage.Encrypt | utils/storage.ts:7-9 | encoding succeeds iff every character is at most U+00FF |
| Storage.DecryptEncrypt | utils/storage.ts:7-13 | decoding undoes encoding on every Latin-1 string |
| Storage.Saved | utils/storage.ts:15-18 | saving succeeds iff every key and value of the config is Latin-1, and then the agent's key is present |
| Storage.Loaded | utils/storage.ts:20-30 | with no entry or an empty entry the result is null; an entry that atob rejects loads as null; otherwise the result is JSON.parse of the decoded text, null where that throws |
| Storage.Deleted | utils/storage.ts:32-34 | after delete the agent's key is absent |
| Storage.SaveTouchesOnlyItsKey | utils/storage.ts:15-18 | saving one agent leaves every other agent's entry, has and load unchanged |
| Storage.DeleteTouchesOnlyItsKey | utils/storage.ts:32-34 | deleting one agent leaves every other agent's entry, has and load unchanged |
| Storage.LoadSaved | utils/storage.ts:15-25 | a saved config with distinct Latin-1 keys and values loads back as the object of exactly those entries in the same order |
| Storage.HasAfterSave | utils/storage.ts:15-38 | after a successful save the agent counts as configured |
| Storage.AfterDelete | utils/storage.ts:32-38 | after delete the agent is not configured and loads as null |
| Storage.LastSaveWins | utils/storage.ts:15-18 | a second save replaces the first entirely |
| Storage.LocalStorage.constructor | utils/storage.ts:15-38 | the store starts empty |
| Storage.LocalStorage.SaveAgentConfig | utils/storage.ts:15-18 | writes the encoded JSON under the agent's key; succeeds iff the config is Latin-1 and setItem does not throw; otherwise reports failure and writes nothing |
| Storage.LocalStorage.GetAgentConfig | utils/storage.ts:20-30 | returns the load function of the current store |
| Storage.LocalStorage.DeleteAgentConfig | utils/storage.ts:32-34 | removes the agent's key and nothing else |
| Storage.LocalStorage.HasAgentConfig | utils/storage.ts:36-38 | true iff the agent's entry exists and is non-empty |
| ChatMessage.AgentName | components/chat-message.tsx:39-52 | a name is returned iff the id is one of the four registered ids |
| ChatMessage.AgentIcon | components/chat-message.tsx:24-37 | an icon is returned iff the id is one of the four registered ids |
| ChatMessage.IconIffName | components/chat-message.tsx:24-52 | the icon is non-null exactly when the name is |
| ChatMessage.NameAndIconMatchRegistry | components/chat-message.tsx:39-48 | each name and icon equals the registry's name and icon for the same id |
| ChatMessage.BadgesNameTheirAgent | components/chat-message.tsx:73-80 | in a valid chat a badge appears only on messages labelled "Kaisen Assistant", and always with a name and an icon |
| ChatMessage.UserMessagesHaveNoBadge | components/chat-message.tsx:73-80 | in a valid chat a message labelled "You" is the user's and carries no badge |
| LlmAnalyzer.ConcatTextAppend | twitter/llm-analyzer.ts:53-59 | the text of concatenated block lists is the concatenation of their texts |
| LlmAnalyzer.ConcatTextSkipsOthers | twitter/llm-analyzer.ts:55-59 | a non-text block contributes nothing |
| LlmAnalyzer.ResponseText | twitter/llm-analyzer.ts:53-59 | the loop yields the in-order concatenation of the text blocks' texts |
| LlmAnalyzer.FirstIndexOf | twitter/llm-analyzer.ts:64 | the first occurrence of a character, or none when absent |
| LlmAnalyzer.LastIndexOf | twitter/llm-analyzer.ts:64 | the last occurrence of a character, or none when absent |
| LlmAnalyzer.ExtractJsonSpan | twitter/llm-analyzer.ts:64-67 | an extracted span starts with `{` and ends with `}` |
| LlmAnalyzer.JsonSpanIsLeftmostLongest | twitter/llm-analyzer.ts:64 | the span is a match of the regex starting leftmost and longest from there; no span exactly when no `{` has a `}` after it |
| LlmAnalyzer.ToJson | twitter/llm-analyzer.ts:4-11 | a recommendation is an object of six members |
| LlmAnalyzer.DefaultRecommendationFields | twitter/llm-analyzer.ts:116-125 | the default is HOLD, confidence 0, reasoning "Error processing sentiment analysis", NEUTRAL, keyInsights ["Error in analysis"], HIGH risk |
| LlmAnalyzer.AnalyzeTradingDecision | twitter/llm-analyzer.ts:33-80 | returns the analysis function of the model's reply |
| LlmAnalyzer.FailuresYieldDefault | twitter/llm-analyzer.ts:62-79 | an API error, a reply with no brace span, or a span that does not parse yields the default recommendation |
| LlmAnalyzer.AnalysisIsObject | twitter/llm-analyzer.ts:62-79 | the analysis is always a JSON object, never an exception |
| LlmAnalyzer.SentimentScore | twitter/llm-analyzer.ts:87-89 | the score is 0 when there are no crypto tweets, and within 0..100 when positive tweets are at most the total |
| Text.TrimStartShape | components/kaisen-assistant.tsx:80 | trimStart drops a prefix made only of white space and leaves no leading white space |
| Text.TrimEndShape | components/kaisen-assistant.tsx:80 | trimEnd drops a suffix made only of white space and leaves no trailing white space |
| Text.TrimEmptyIffAllWhitespace | components/kaisen-assistant.tsx:80 | `!input.trim()` holds iff every character is JavaScript white space |
| Text.ToLowerAscii | components/kaisen-assistant.tsx:108-126 | each character is mapped through ASCII lower-casing, length kept |
| Text.ContainsIffOccurs | components/kaisen-assistant.tsx:108-126 | `includes` holds iff the keyword occurs at some position |
| Text.JoinContainsEach | components/agent-config-dialog.tsx:46 | the joined text contains every item |
| JsObject.GetSomeIffKey | components/agent-config-dialog.tsx:42 | a property reads as present iff its key is in the object |
| JsObject.GetAt | components/agent-config-dialog.tsx:42 | with distinct keys, each entry's key reads its own value |
| JsObject.GetPut | components/agent-config-dialog.tsx:57-60 | after a spread-and-set, the set key reads the new value and every other key reads as before |
| JsObject.PutKeys | components/agent-config-dialog.tsx:57-60 | setting an existing key keeps the key order; a new key goes last |
| JsObject.PutDistinct | components/agent-config-dialog.tsx:57-60 | setting a key keeps keys distinct |
| JsObject.PutAllFresh | utils/storage.ts:25 | building an object from members with distinct keys keeps them in order |
| JsObject.PutAllDistinct | utils/storage.ts:25 | an object built member by member has distinct keys |
| Base64.SextetChar | utils/storage.ts:7-9 | every encoded character is in the base64 alphabet |
| Base64.CharSextet | utils/storage.ts:11-13 | a character decodes iff it is in the alphabet |
| Base64.CharSextetInverse | utils/storage.ts:7-13 | decoding a character undoes encoding a 6-bit value |
| Base64.EncodeUnpadded | utils/storage.ts:7-9 | the unpadded encoding uses only characters of the base64 alphabet |
| Base64.EncodeUnpaddedLength | utils/storage.ts:7-9 | the unpadded encoding has length 0, 2 or 3 mod 4 for input length 0, 1 or 2 mod 3 |
| Base64.Btoa | utils/storage.ts:7-9 | btoa succeeds iff every character is at most U+00FF |
| Base64.NoWhitespaceIsUnchanged | utils/storage.ts:11-13 | white-space removal leaves text without ASCII white space unchanged |
| Base64.DecodeEncodeGroups | utils/storage.ts:7-13 | decoding the unpadded encoding of any bytes gives them back |
| Base64.StripPaddingOfEncoding | utils/storage.ts:11-13 | atob removes exactly the padding btoa added |
| Base64.AtobBtoa | utils/storage.ts:7-13 | atob(btoa(s)) == s for every Latin-1 string |
| Base64.BtoaNonEmpty | utils/storage.ts:36-37 | btoa of a non-empty string is non-empty |
| Json.HexDigit | utils/storage.ts:16 | a hex digit written by stringify reads back as its value |
| Json.ParseQuoteChar | utils/storage.ts:16-25 | each escaped character reads back as itself |
| Json.ParseQuoteBody | utils/storage.ts:16-25 | the body of a quoted string reads back as the string, leaving what follows |
| Json.LexQuote | utils/storage.ts:16-25 | a quoted string lexes as one string token |
| Json.LexMemberText | utils/storage.ts:16-25 | a stringified member lexes as string, colon, string |
| Json.LexMembersText | utils/storage.ts:16-25 | stringified members lex as their member tokens separated by commas |
| Json.LexStringify | utils/storage.ts:16-25 | a stringified object lexes as braces around its member tokens |
| Json.ParseMemberTokens | utils/storage.ts:16-25 | member tokens parse back as the same entries |
| Json.ParseObjectTokens | utils/storage.ts:16-25 | the object tokens of distinct entries parse as the object of those entries |
| Json.ParseStringify | utils/storage.ts:16-25 | JSON.parse(JSON.stringify(config)) is the object of the same entries in the same order, for distinct keys |
| Json.AsStringObject | utils/storage.ts:25 | a value read as an object of strings is exactly the object of those entries |
| Json.AsStringObjectFromStrings | utils/storage.ts:25 | an object of strings reads back as the entries it was built from |
| Json.FromStrings | utils/storage.ts:16 | each entry becomes the same key with a string value |
| Json.DistinctFromStrings | utils/storage.ts:16 | the JSON object has distinct keys iff the config does |
| Json.ParseValueObjectDistinct | utils/storage.ts:25 | every object read from tokens has distinct keys |
| Json.ParsedObjectDistinct | utils/storage.ts:25 | every object JSON.parse returns has distinct keys |
| Json.ParseBraceIsObject | twitter/llm-analyzer.ts:69 | text starting with `{` parses, if at all, as an object |
| Json.QuoteCharRange | utils/storage.ts:16 | an escaped character stays under a bound of at least DEL iff the character does |
| Json.QuoteBodyRange | utils/storage.ts:16 | a quoted string body stays under such a bound iff the string does |
| Json.StringifyRange | utils/storage.ts:16 | the stringified object stays under such a bound iff every key and value does, so btoa accepts it iff the config is Latin-1 |

## Left out

- JSX rendering and styling, the scroll-into-view effect, `formatTime`, `components/voice-waveform.tsx` and `components/agents-list.tsx`: presentation only.
- `test.ts`: an I/O script (environment, network scraping, console output).
- The Anthropic SDK call and the prompt text: the reply is a parameter (`None` when the call throws), and `createTradingPrompt` is free text.
- LlmAnalyzer.SentimentScore: computed in exact real arithmetic; the floating-point division and `Math.round` of the prompt are not modelled.
- LlmAnalyzer.AnalyzeTradingDecision: the parsed object is returned unvalidated, as the cast in the source does; nothing is claimed about its fields.
- `Date.now()` ids and `new Date()` timestamps: ids are a parameter `now`; no uniqueness is claimed, since two ids in one millisecond collide.
- Timer durations (1.5 s, 3 s) and their interleavings: timers are queued events that may fire in any order, so `activeAgent` is not claimed to stay "processing" until its own reply.
- Text.ToLowerAscii: only ASCII letters are lower-cased. Every keyword is lowercase ASCII and none contains "k" or ends in "i", so the non-ASCII mappings of full `toLowerCase` (U+212A to "k", U+0130 to "i" plus a combining dot) cannot change which keywords occur.
- Lone UTF-16 surrogates: Dafny characters are Unicode scalar values, so strings holding them are not represented; `JSON.parse` of a `\u` escape that leaves a lone surrogate is treated as a failure.
- JSON numbers are kept as their literal text, not as floating-point values.
- JavaScript's ordering of integer-like keys first in objects: keys keep insertion order.
- ConfigDialog.FormFromSaved: a stored JSON value that is truthy but not an object of strings (an array, a number, an object with non-string values) is treated as no saved config, where the source would put that value in the form.
- Storage: no claim of secrecy; base64 is an encoding only.
- Storage.LocalStorage.GetAgentConfig, Storage.LocalStorage.HasAgentConfig, Storage.LocalStorage.DeleteAgentConfig and ConfigDialog.Dialog.Open: when the browser refuses storage access, reading `localStorage` itself throws a SecurityError, so every storage call throws (`getItem` in utils/storage.ts:21 sits before the `try`) and the dialog's open effect with it; the model's store is always accessible, and these four always succeed.
- JsObject.Get and ConfigDialog.IsFilled: only own keys are read. JavaScript's `formData[field.key]` also reads members inherited from `Object.prototype`, so a required field keyed "constructor", "toString" or "valueOf" would read a (truthy) function and never be reported missing; MissingFieldsMembership and NoneMissingIffAllFilled hold for schemas without such keys, which covers every schema in types/agent-config.ts.
- The `console.error` logging in utils/storage.ts:27 and twitter/llm-analyzer.ts:72,77: output only, with no effect on the results.
