# Urban Copilot — a Dafny model of its question pipeline

Urban Copilot is a small web service that answers free-text questions about a
city. A question goes through three layers:

- the page script checks it and sends it;
- the `UrbanAgent` classifies it into one of a few canned answers;
- an optional text-analytics client supplies key phrases and a sentiment label for that classification.

This project models those three pieces of logic and proves what they promise.

- `CognitiveServices` (cognitive_services.dfy) models the text-analytics client.
  - The client is built from constructor arguments, falling back on the environment.
  - Each of its four operations picks one of three outcomes: the "unconfigured" default, the "failure" default, or the value read from the service.
  - The HTTP exchange is a parameter, `HttpOutcome<T>`. It is either `Reply(status, body)`, where a `None` body stands for an unreadable answer, or `Unreachable`. The availability probe gets a `Probe`.
  - Every operation is a total function, so no failure of the service ever reaches a caller as an exception.
- `UrbanAgent` (urban_agent.dfy) models the agent.
  - The six-topic keyword table is the constant `UrbanKeywords`.
  - `FindTopic` and `FindHit` model the nested first-match search: phrases in the outer loop, topics in the inner loop, in table order.
  - `GenerateEnhancedResponse` adds the checks of the question text and the sentiment branches.
  - `Fallback` is the keyword fallback, `ProcessUrbanQuestion` the enrichment pipeline, and `Run` the outer error handling.
  - Python exceptions are values. The client's model never raises. The exceptions the typed model cannot produce on its own are parameters of the two functions that catch them:
    - `fault` is an exception inside `process_urban_question`'s `try`, for example a malformed field of the service's answer or a failing logger;
    - `escaped` is an exception leaving `process_urban_question` or the logging in `run`.
- `ChatPage` (chat_page.dfy) models the page script.
  - `EscapeHtml` is the five chained global replacements. It is proved equal to the per-character map `EscapeEach`, and proved to be inverted by `Unescape`.
  - `HandleQuestionSubmit` is the blank-question guard, built on a model of ECMAScript's `trim()`.
- `Strings` (strings.dfy) holds ASCII lowering and Python's substring test `sub in s`.
- `Options` (options.dfy) holds an `Option` type for Python's `None`.

Two facts about the code that the model follows:

- `run` refuses only the empty string (app/agents/urban_agent.py:31). Only the page trims (static/js/app.js:22); app/routes.py:22 does not, so a whitespace-only question posted to `/ask` is answered. `UrbanAgent.BlankQuestionIsAnswered` states this.
- `raise_for_status` raises only for statuses 400 to 599, so a 1xx or 3xx reply with a readable body counts as success. `CognitiveServices.RaisesForStatus` follows this.

## Model

| member | source | states |
|---|---|---|
| `Strings.Lower` | app/agents/urban_agent.py:122 | `phrase.lower()` (also `question.lower()` at lines 85, 87 and 128), on ASCII: the result has the input's length, holds no capital letter, and keeps every other character in place. |
| `Strings.LowerIdempotent` | app/agents/urban_agent.py:122 | Lowering already-lowered text changes nothing. |
| `Strings.LowerIgnoresCase` | app/agents/urban_agent.py:122 | Both directions: two texts lower to the same text iff they differ only in the case of their ASCII letters. |
| `Strings.ContainsIffOccurs` | app/agents/urban_agent.py:124 | The left-to-right scan used for Python's `keyword in phrase_lower` holds exactly when the keyword occurs at some index of the phrase. |
| `CognitiveServices.NewClient` | app/core/cognitive_services.py:17-27 | Each setting is the constructor argument when that is a non-empty string, and the environment variable's value otherwise. The client is configured iff each of the two settings is non-empty from one of the two sources. |
| `CognitiveServices.IsAvailable` | app/core/cognitive_services.py:34-64 | The result is "up" or "down". It is "up" iff the key and endpoint are set and the probe answered with a status below 400; a missing setting or a failed probe gives "down". |
| `CognitiveServices.Payload` | app/core/cognitive_services.py:97-101 | The `try` block gets a document iff the request reached the service, `raise_for_status` did not raise (status outside 400-599), and the body could be read. The document is the body unchanged. |
| `CognitiveServices.DetectLanguage` | app/core/cognitive_services.py:66-109 | ("en", 1.0) when unconfigured, ("en", 0.0) on any failure, and otherwise the service's language name and confidence score. |
| `CognitiveServices.AnalyzeSentiment` | app/core/cognitive_services.py:111-157 | ("neutral", 0.5) when unconfigured and on every failure, including a label with no confidence entry. On success it is the label, with a score equal to the larger of the label's confidence and 0.5. The score is never below 0.5 on any path. |
| `CognitiveServices.ExtractKeyPhrases` | app/core/cognitive_services.py:159-202 | The service's `keyPhrases` list unchanged on success; `[text]` when unconfigured or on failure. |
| `CognitiveServices.UnconfiguredIgnoresService` | app/core/cognitive_services.py:41-171 | With a missing key or endpoint, no operation depends on what the service would answer: the probe gives "down", and the other three give their unconfigured defaults. |
| `UrbanAgent.FindTopic` | app/agents/urban_agent.py:123-125 | The inner loop returns the first topic, in the table's insertion order, whose keyword the lowered phrase contains. `None` means no topic's keyword occurs in it. |
| `UrbanAgent.FindHit` | app/agents/urban_agent.py:121-125 | The nested loops return the first phrase that mentions any topic, paired with the first topic it mentions. No earlier phrase mentions a topic, and no earlier topic occurs in that phrase. `None` means no phrase mentions any topic. |
| `UrbanAgent.GenerateEnhancedResponse` | app/agents/urban_agent.py:92-139 | Total. The result is always one of the nine literal answers: the six topics' first responses, the weather answer, and the three sentiment answers. It is never empty. |
| `UrbanAgent.EarliestPhraseDecides` | app/agents/urban_agent.py:121-125 | If phrase `p` mentions topic `k`, no earlier phrase mentions any topic, and no earlier topic occurs in `p`, then the answer is topic `k`'s first response. |
| `UrbanAgent.RepliesDistinct` | app/agents/urban_agent.py:105-139 | The six first responses are pairwise different, and each differs from the weather and sentiment answers. |
| `UrbanAgent.ReplyNamesTopic` | app/agents/urban_agent.py:121-129 | Both directions: the answer is topic `k`'s first response iff `k` is the topic of the first phrase hit, or `k` is traffic, no phrase hits, and the lowered question contains "traffic". |
| `UrbanAgent.QuestionTrafficBeatsWeather` | app/agents/urban_agent.py:127-129 | With no phrase hit, a question containing "traffic" gets the traffic answer, even if it also contains "weather". |
| `UrbanAgent.QuestionWeather` | app/agents/urban_agent.py:130-132 | With no phrase hit and no "traffic", a question containing "weather" gets the heat-island weather answer. |
| `UrbanAgent.SentimentDecides` | app/agents/urban_agent.py:133-139 | With no phrase hit and neither keyword in the question, the sentiment decides. "negative" gives the concern answer, "positive" the enthusiasm answer, and any other label the generic answer. |
| `UrbanAgent.CaseDoesNotMatter` | app/agents/urban_agent.py:121-131 | A question and key phrases that differ only in letter case get the same enhanced answer, since every test reads the lowered text. |
| `UrbanAgent.NewAgent` | app/agents/urban_agent.py:11-17 | The agent's client is built with no arguments, so its key and endpoint are exactly the environment's values. |
| `UrbanAgent.Fallback` | app/agents/urban_agent.py:81-90 | When enrichment raises, "traffic" in the lowered question gives "Traffic is heavy in downtown today.". Otherwise "weather" gives the sunny-weather sentence. Otherwise the answer is "Urban Copilot Response to: " followed by the question. |
| `UrbanAgent.ProcessUrbanQuestion` | app/agents/urban_agent.py:51-90 | An exception in the `try` block selects the keyword fallback. Otherwise the answer is one of the nine enhanced answers. It is computed from the client's key phrases and sentiment label for the question. |
| `UrbanAgent.Run` | app/agents/urban_agent.py:19-49 | The empty question gives exactly "Error: Question cannot be empty", whatever the service and faults would have been, so nothing is processed. An escaping `ValueError` gives "Error: " and its message; any other escaping exception gives the fixed apology. Otherwise the answer is that of `process_urban_question`. The result is never empty. |
| `UrbanAgent.BlankQuestionIsAnswered` | app/agents/urban_agent.py:31-35 | A question made only of a blank is not refused: it reaches classification and gets one of the nine enhanced answers, not the empty-question error. |
| `UrbanAgent.LanguageDoesNotMatter` | app/agents/urban_agent.py:63-66 | The answer does not depend on the outcome of the language-detection call. |
| `UrbanAgent.UnconfiguredAnswersByTopic` | app/agents/urban_agent.py:62-78 | With an unconfigured client the key phrases are `[question]` and the sentiment is "neutral". A question whose lowered text contains a topic keyword gets the first such topic's answer, in table order. Otherwise the answer is the weather answer if the question contains "weather", and the generic answer if not. |
| `ChatPage.ReplaceAll` | static/js/app.js:113-117 | One global replacement `.replace(/c/g, entity)`, for a replacement with no `$`, as all five entities are. When the entity does not contain `c`, no `c` remains. No character absent from both the input and the entity appears in the output. |
| `ChatPage.EscapeHtml` | static/js/app.js:111-118 | The output contains no `<`, `>`, `"` or `'`. |
| `ChatPage.EscapeHtmlIsPerCharacter` | static/js/app.js:112-117 | The five chained replacements, `&` first, equal a per-character map. Each special character becomes its entity, and every other character is copied unchanged and in order. No entity is escaped twice. |
| `ChatPage.AmpersandsBeginEntities` | static/js/app.js:112-117 | Every `&` in the output begins one of `&amp;`, `&lt;`, `&gt;`, `&quot;` or `&#039;`. |
| `ChatPage.EscapeHtmlIdentity` | static/js/app.js:111-118 | On text containing none of the five special characters, escaping is the identity. |
| `ChatPage.EscapeHtmlLength` | static/js/app.js:111-118 | The output is never shorter than the input. It has the same length iff no special character occurs. |
| `ChatPage.UnescapeEscapeHtml` | static/js/app.js:111-118 | Round trip: reading the five entities back from the output gives the original message. |
| `ChatPage.EscapeHtmlInjective` | static/js/app.js:111-118 | Two different messages never escape to the same text. |
| `ChatPage.Trim` | static/js/app.js:22 | `trim()` returns the slice of the input between its leading and trailing ECMAScript white space and line terminators. What it cuts is all white space, and the result neither starts nor ends with white space. It is empty iff the input is all white space. |
| `ChatPage.HandleQuestionSubmit` | static/js/app.js:18-28 | An input that is empty after `trim()` is refused with "Please enter a question." and nothing is sent. Otherwise the trimmed question is sent, and it is never empty. |

## Left out

- HTTP routing and JSON glue (app/routes.py, app/server.py, app/main.py, wsgi.py, app/__init__.py). Their one decision in app/routes.py:21-23, refusing an absent or empty question with status 400, sits outside the core; the second `/ask` in app/server.py has no such guard.
- Network I/O of the client: request construction, URLs, headers, timeouts and JSON decoding. They are replaced by the `HttpOutcome` and `Probe` parameters. The URL paths are not modelled. Note that the three POST operations join the endpoint and the path without a `/`, while the probe puts one in.
- The health endpoint (`/api/health`, named in app/limiter.py:30 and app/logging_config.py:55), which lives in the HTTP layer. No caller of `is_available` is part of this model.
- Logging: every `logger` call and app/logging_config.py. A logging failure appears only through the `fault` and `escaped` parameters.
- The `language != "English"` test in `process_urban_question`. It only logs, and `UrbanAgent.LanguageDoesNotMatter` states that the answer ignores the detected language.
- Dynamic typing of the service's answer. Fields are typed: a language name is a string, a confidence is a number, key phrases are a list of strings. A field of another type that makes the agent raise is represented by `fault`, not produced by the model.
- `UrbanAgent.Run` models the question as a string. Python's `None`, which `not question` would also refuse, is not a separate case.
- `Strings.Lower` lowers ASCII letters only. Python's `str.lower` also lowers other Unicode letters, and can change the length of a string.
- The second response of each topic, which the agent never returns.
- The page script's DOM handling (`displayUserMessage`, `displayAssistantMessage`, `displayErrorMessage`, `setLoadingState`, `scrollToBottom`) and the asynchronous `fetchAnswer`. They only change the page or talk to the network.
- `ChatPage.EscapeHtml` is modelled on strings only. Calling `escapeHtml` on a missing message (`undefined`) raises in the browser, and that case is not modelled.
- The legacy agent (agents/urban_agent.py), the abstract base class (core/agent_base.py), the entry points that call a missing method (app.py, app/cli.py), configuration and environment scripts (app/config.py, check_env.py, app/limiter.py, app/swagger.py), load and live-endpoint test scripts, and create_structure.py. These are not part of this model.
