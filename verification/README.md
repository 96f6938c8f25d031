# Airline loyalty assistant: the decision logic, modelled in Dafny

The assistant is a Spring AI chat application. It answers questions about the Delta SkyMiles
Medallion and United MileagePlus Premier programmes, and it can look up aviation weather.
Most of it is library wiring. This project models the logic the repository writes itself:

- **Weather gate** (`AviationWeatherService`, module `WeatherService`).
  - An ICAO code must match `^[A-Z]{4}$`, and for METAR the hours must lie in 1..24, before
    the weather client is called.
  - The weather summary map.
  - The client (module `Weather`) is an oracle. Each request gives a record, no record, or a
    transport failure, which the client rethrows as `WeatherDataNotFoundException`.
  - Every operation returns the trace of client calls it made, so "no call is made" is a
    statement about that trace.
- **Weather tools** (`WeatherToolsService`, module `WeatherTools`).
  - Each tool uppercases the code and delegates to the gate.
  - It flattens the record into a key/value map: the required keys take defaults, and each
    optional key is present exactly when its field is.
  - It turns an absent record or any exception into an `{"error": ...}` payload.
- **Input guardrail** (`InputGuardrailAdvisor`, module `Guardrail`).
  - It builds the classification prompt and computes the verdict: trim, uppercase, compare
    with `YES`, `null` counts as `NO`, and any exception fails open.
  - The advisor step then either throws the rejection message without calling the chain, or
    forwards the request unchanged.
  - The advisor's order relative to the logger advisor.
- **Loyalty reference tools** (`AirlineLoyaltyToolsService`, module `LoyaltyTools`).
  - Brochure pages are joined with blank lines, and start-up loading is modelled with the
    PDF reader as an oracle.
  - There are three text-composing tools, each with an "unavailable" branch. The tools are
    functions of the loaded content, so two calls over the same content give the same
    answer.
- **Chat controller** (`ChatController`, module `ChatFlow`).
  - `index`, `chat` and `newConversation` are transitions over the HTTP session's
    conversation id.
  - A blank query is refused, and a failure is masked by a generic message.
  - A fresh UUID and `AiService.processQuery` are parameters.
- **Vector store debug page** (`VectorStoreDebugController`, module `VectorDebug`).
  - Each search hit is enriched: its text is cut to 500 characters, a missing metadata value
    becomes `N/A`, and the distance is used as the score.
  - The statistics handler counts distinct string sources and titles, through
    `mapNotNull`/`distinct`.
  - Building and running the similarity search is one oracle.

Supporting modules:

- `Text` models the Kotlin standard-library string functions the code relies on:
  - `Char.isWhitespace`, `trim`, `isBlank`, ASCII `uppercase`, `lines`, `trimIndent`,
    `joinToString("\n")`, `take` and `Int.toString`.
  - The properties proved about them include that `trim` makes the unique whitespace cut, that
    `lines` undoes a join, and the exact result of `trimIndent` on a raw-string template.
- `Jvm` holds `Int`/`Long` as bounded integers, `Double` as an opaque bit pattern, and the
  three exception classes the code throws, and any other exception by class name and message,
  with the `IllegalArgumentException` subtype relation.
- `Mvc` holds the values a controller puts into Spring's `Model`.
- `Wrappers` holds `Option` and `Result`.

## Model

| member | source | states |
|---|---|---|
| Weather.ClientResult | src/main/kotlin/com/airline/loyalty/client/AviationWeatherClient.kt:24-35 | The first record comes back as is and an empty answer comes back as `null`. A transport failure, and only that, becomes `WeatherDataNotFoundException("Could not fetch <product> for <code>")`. |
| WeatherService.ValidateAirportCode | src/main/kotlin/com/airline/loyalty/service/AviationWeatherService.kt:43-49 | Accepts a code if and only if it has exactly 4 characters, all in 'A'..'Z'. Otherwise it raises `InvalidAirportCodeException` with the message naming the code, which is an `IllegalArgumentException`. |
| WeatherService.ValidateHours | src/main/kotlin/com/airline/loyalty/service/AviationWeatherService.kt:51-57 | Accepts exactly the hours 1..24. Otherwise it raises an `IllegalArgumentException` naming the value. |
| WeatherService.GetMetar | src/main/kotlin/com/airline/loyalty/service/AviationWeatherService.kt:16-21 | A bad code gives the code error with no call. A good code with bad hours gives the hours error with no call. Otherwise exactly one `fetchMetar(code, hours)` is made with both arguments unchanged, and its result is returned unchanged. No call is made if and only if the result is an `IllegalArgumentException`. |
| WeatherService.GetTaf | src/main/kotlin/com/airline/loyalty/service/AviationWeatherService.kt:23-27 | Only the code is checked. A good code makes exactly one `fetchTaf(code)` call, whose result is returned. No call is made if and only if the result is a validation error. |
| WeatherService.Summary | src/main/kotlin/com/airline/loyalty/service/AviationWeatherService.kt:36-40 | The keys are exactly `airport_code`, `current_weather` and `forecast`. The code is stored as given, and each record is stored as itself, or as `null` if and only if it is absent. |
| WeatherService.GetWeatherSummary | src/main/kotlin/com/airline/loyalty/service/AviationWeatherService.kt:29-41 | The code is checked with no call on failure. Then METAR is fetched with hours 1, then TAF. A client exception stops the operation at the call that threw it. On success the result is the summary of both answers. |
| WeatherService.CodeCheckedBeforeHours | src/main/kotlin/com/airline/loyalty/service/AviationWeatherService.kt:17-18 | When both the code and the hours are bad, the code error is the one raised. Both errors are `IllegalArgumentException`s. |
| WeatherService.RejectionMakesNoCall | src/main/kotlin/com/airline/loyalty/service/AviationWeatherService.kt:16-30 | A code outside `^[A-Z]{4}$` makes no client call in any of the three operations. |
| WeatherService.HoursPassedThrough | src/main/kotlin/com/airline/loyalty/service/AviationWeatherService.kt:18-20 | For a valid code, every hours value in 1..24 reaches the client unchanged, and no other value reaches it. |
| WeatherTools.ErrorPayloadRoundTrip | src/main/kotlin/com/airline/loyalty/service/WeatherToolsService.kt:41 | The message can be read back out of an `{"error": "<message>"}` payload whatever characters it holds. |
| WeatherTools.PutAllPresentCarries | src/main/kotlin/com/airline/loyalty/service/WeatherToolsService.kt:93-100 | A run of `?.let { put(key, it) }` lines under distinct new keys keeps the fields already there. It adds each key exactly when its value is present, with that value, and adds nothing else. |
| WeatherTools.FormatMetar | src/main/kotlin/com/airline/loyalty/service/WeatherToolsService.kt:88-103 | `airport_code`, `observation_time` and `raw_metar` are always present, defaulting to `Unknown`, `Unknown` and `Not available`. Each of the eight optional keys is present if and only if its field is, and carries that field's value. No other key appears. |
| WeatherTools.FormatMetarRoundTrip | src/main/kotlin/com/airline/loyalty/service/WeatherToolsService.kt:88-103 | Reading the flattened map back gives the original METAR, except that the three always-shown fields have their defaults filled in. |
| WeatherTools.FormatTaf | src/main/kotlin/com/airline/loyalty/service/WeatherToolsService.kt:105-115 | The five required keys are always present, with the text `Unknown`/`Not available` as defaults. A present validity time is the number itself. `forecast_periods` is present if and only if the field is. No other key appears. |
| WeatherTools.FormatTafRoundTrip | src/main/kotlin/com/airline/loyalty/service/WeatherToolsService.kt:105-115 | Reading the flattened map back gives the original TAF with only its three text defaults filled in. A missing validity time stays recognisable. |
| WeatherTools.CaughtReply | src/main/kotlin/com/airline/loyalty/service/WeatherToolsService.kt:39-42 | A caught exception becomes an error payload that carries exactly the exception's message, or `null` for an exception without one. |
| WeatherTools.GetMetarTool | src/main/kotlin/com/airline/loyalty/service/WeatherToolsService.kt:25-43 | The tool makes the calls the gate makes for the uppercased code. A gate exception becomes an error payload. An absent record gives "No METAR data available for airport code <code as typed>". The reply is a field map if and only if a record came back, and it is then that record flattened. |
| WeatherTools.GetMetarToolDefault | src/main/kotlin/com/airline/loyalty/service/WeatherToolsService.kt:25-28 | When `hours` is omitted, a code the gate accepts is fetched for 1 hour. |
| WeatherTools.MetarReply | src/main/kotlin/com/airline/loyalty/service/WeatherToolsService.kt:31-42 | From the gate's outcome: an exception gives the caught-exception payload, an absent record the "No METAR data" payload with the code as typed, and a record, and only a record, a field map holding that record flattened. |
| WeatherTools.GetTafTool | src/main/kotlin/com/airline/loyalty/service/WeatherToolsService.kt:52-67 | The same as for METAR, with the TAF gate, TAF flattening and the "No TAF data" message. |
| WeatherTools.TafReply | src/main/kotlin/com/airline/loyalty/service/WeatherToolsService.kt:55-66 | The same as `MetarReply`, with TAF flattening and the "No TAF data" message. |
| WeatherTools.GetAirportWeatherSummaryTool | src/main/kotlin/com/airline/loyalty/service/WeatherToolsService.kt:76-86 | The reply is the summary map of the uppercased code, or the caught exception as an error payload. The calls are those of the summary. |
| WeatherTools.UppercasedCodeCheck | src/main/kotlin/com/airline/loyalty/service/WeatherToolsService.kt:32 | After uppercasing, a code passes the gate if and only if it is exactly four ASCII letters of either case. |
| WeatherTools.RefusedCodeMakesNoCall | src/main/kotlin/com/airline/loyalty/service/WeatherToolsService.kt:31-42 | For a code that is not four ASCII letters, every tool answers with the code error as a payload and makes no client call. |
| WeatherTools.LowercaseCodeIsUppercased | src/main/kotlin/com/airline/loyalty/service/WeatherToolsService.kt:32 | `get_metar("kjfk")` asks the client for `KJFK` over 1 hour. |
| WeatherTools.ThreeLetterCodeRefused | src/main/kotlin/com/airline/loyalty/service/WeatherToolsService.kt:32 | `get_metar("JFK")` is refused with the code error and makes no call. |
| Guardrail.RejectionMessageText | src/main/kotlin/com/airline/loyalty/config/InputGuardrailAdvisor.kt:36-40 | `REJECTION_MESSAGE.trimIndent()` is the three lines with the margin removed and their trailing spaces kept, joined by single line feeds. |
| Guardrail.ClassificationPrompt | src/main/kotlin/com/airline/loyalty/config/InputGuardrailAdvisor.kt:78-83 | The prompt is the instructions followed by `"\n\nUser question: "` and then the message, which can be read back unchanged. The temperature is 0. |
| Guardrail.ClassificationPromptInjective | src/main/kotlin/com/airline/loyalty/config/InputGuardrailAdvisor.kt:79 | Different questions give different classification prompts. |
| Guardrail.Verdict | src/main/kotlin/com/airline/loyalty/config/InputGuardrailAdvisor.kt:86-97 | A failed call accepts. An empty result list accepts, because `results[0]` throws and fails open. A `null` first text rejects. |
| Guardrail.VerdictSaysYes | src/main/kotlin/com/airline/loyalty/config/InputGuardrailAdvisor.kt:86-97 | The verdict accepts if and only if the call failed, returned no generation, or the first text is "yes" in any case with only whitespace around it. |
| Guardrail.VerdictAcceptsExamples | src/main/kotlin/com/airline/loyalty/config/InputGuardrailAdvisor.kt:87-92 | `" yes\n"` is accepted, and so is an empty result list. |
| Guardrail.VerdictRejectsExamples | src/main/kotlin/com/airline/loyalty/config/InputGuardrailAdvisor.kt:87-92 | `"YES."` is rejected, and so is a `null` first text, whatever follows it. |
| Guardrail.AdviseCall | src/main/kotlin/com/airline/loyalty/config/InputGuardrailAdvisor.kt:51-73 | Exactly one classification of the user message is made. The chain is not called if and only if the verdict rejects, and then the result is `IllegalArgumentException(rejection message)`. Otherwise the request is forwarded unchanged, once, and the chain's result is returned as is. |
| Guardrail.MissingMessageIsEmpty | src/main/kotlin/com/airline/loyalty/config/InputGuardrailAdvisor.kt:56 | A request without a user message is classified as the empty question. |
| Guardrail.FailsOpen | src/main/kotlin/com/airline/loyalty/config/InputGuardrailAdvisor.kt:93-97 | When the classifier throws or returns no generation, the advisor returns what the chain returns. |
| Guardrail.RejectionIsIllegalArgument | src/main/kotlin/com/airline/loyalty/config/InputGuardrailAdvisor.kt:63-67 | When nothing is forwarded, the result is an `IllegalArgumentException` carrying the rejection message. |
| Guardrail.Order | src/main/kotlin/com/airline/loyalty/config/InputGuardrailAdvisor.kt:47-49 | The guardrail's order is `Int.MIN_VALUE`, the least `Int`. |
| Guardrail.GuardrailRunsFirst | src/main/kotlin/com/airline/loyalty/config/InputGuardrailAdvisor.kt:47-49 | The guardrail is ordered strictly before the logger advisor, whose order is 0, and not after any advisor. |
| LoyaltyTools.JoinPages | src/main/kotlin/com/airline/loyalty/service/AirlineLoyaltyToolsService.kt:55 | The joined text is empty if and only if there is no page, or a single page without text. |
| LoyaltyTools.PageAt | src/main/kotlin/com/airline/loyalty/service/AirlineLoyaltyToolsService.kt:55 | Every page's text, with `null` read as `""`, appears in the joined text at the offset of the pages and `"\n\n"` separators before it. |
| LoyaltyTools.JoinPagesLength | src/main/kotlin/com/airline/loyalty/service/AirlineLoyaltyToolsService.kt:55 | The joined text's length is the pages' lengths plus two characters between each pair of consecutive pages. |
| LoyaltyTools.LoadContent | src/main/kotlin/com/airline/loyalty/service/AirlineLoyaltyToolsService.kt:20-39 | Delta's brochure is read first. A failure there is rethrown before United's is read, and a failure on United's is rethrown too. Loading succeeds if and only if both reads do, and then holds each brochure's joined pages. |
| LoyaltyTools.DeltaQualificationAsWritten | src/main/kotlin/com/airline/loyalty/service/AirlineLoyaltyToolsService.kt:62-72 | The tool as the code computes it: the answer is the unavailable sentence if and only if the Delta text is empty. Whatever the text holds, the framed answer spans several lines and so is never the one-line sentence. |
| LoyaltyTools.UnitedQualificationAsWritten | src/main/kotlin/com/airline/loyalty/service/AirlineLoyaltyToolsService.kt:79-89 | The same, for the United text. |
| LoyaltyTools.CompareProgramsAsWritten | src/main/kotlin/com/airline/loyalty/service/AirlineLoyaltyToolsService.kt:96-112 | The same, for the comparison: the unavailable sentence if and only if either text is empty. |
| LoyaltyTools.DeltaQualification | src/main/kotlin/com/airline/loyalty/service/AirlineLoyaltyToolsService.kt:62-72 | Corrected definition (the answer the template lays out, see Findings): the answer is the unavailable sentence if and only if the Delta text is empty. Otherwise the text occurs in the answer, followed by Delta's address. |
| LoyaltyTools.UnitedQualification | src/main/kotlin/com/airline/loyalty/service/AirlineLoyaltyToolsService.kt:79-89 | Corrected definition: the same, for United's text and address. |
| LoyaltyTools.QualificationRoundTrip | src/main/kotlin/com/airline/loyalty/service/AirlineLoyaltyToolsService.kt:66-88 | Reading each single-programme answer back gives exactly the text it was built from, whatever that text contains. The unavailable sentence gives nothing back. |
| LoyaltyTools.ComparePrograms | src/main/kotlin/com/airline/loyalty/service/AirlineLoyaltyToolsService.kt:96-112 | Corrected definition: the answer is the unavailable sentence if and only if either text is empty. Otherwise Delta's banner and text occur before United's banner and text. |
| LoyaltyTools.ComparisonNeedsBoth | src/main/kotlin/com/airline/loyalty/service/AirlineLoyaltyToolsService.kt:62-98 | The comparison is unavailable exactly when one of the single-programme answers is. |
| LoyaltyTools.AsWrittenAgreesOnSingleLines | src/main/kotlin/com/airline/loyalty/service/AirlineLoyaltyToolsService.kt:66-112 | When each content is a single line, the three raw-string templates followed by `trimIndent()` give exactly the intended answers. |
| LoyaltyTools.MultiLineDeltaKeepsMargin | src/main/kotlin/com/airline/loyalty/service/AirlineLoyaltyToolsService.kt:66-72 | When the Delta content has a second line starting in column 0, `trimIndent()` keeps the 12-space margin on every template line. The answer then differs from the intended one. |
| LoyaltyTools.MultiLineUnitedKeepsMargin | src/main/kotlin/com/airline/loyalty/service/AirlineLoyaltyToolsService.kt:83-89 | The same for a United content with a second line starting in column 0: the margin stays, and the answer differs from the intended one. |
| LoyaltyTools.MultiLineComparisonKeepsMargin | src/main/kotlin/com/airline/loyalty/service/AirlineLoyaltyToolsService.kt:100-112 | The same defect appears in the comparison: its first line starts with the margin. |
| LoyaltyTools.SplitProgramIndented | src/main/kotlin/com/airline/loyalty/service/AirlineLoyaltyToolsService.kt:65-71 | If the interpolated text's second line is indented by `w` columns, with `w` at most 12, `trimIndent()` cuts `w` columns from every template line. The heading, the blank lines, the first content line and the source line keep `12 - w` columns of margin. The second content line loses its own indent. |
| LoyaltyTools.IndentedContentLosesIndent | src/main/kotlin/com/airline/loyalty/service/AirlineLoyaltyToolsService.kt:66-72 | For Delta content `first + "\n" + second`, where `second` is indented by `w` columns with `0 < w <= 12`, the answer's lines are shifted left by `w`. The content's second line is changed, so the content is not reproduced verbatim. When `w < 12` the answer also starts with a space and differs from the intended one. |
| ChatFlow.Index | src/main/kotlin/com/airline/loyalty/controller/ChatController.kt:22-36 | A fresh id is stored only when the key is absent. The page shows the stored id with `hasConversation`. A non-string attribute fails the `as String` cast. |
| ChatFlow.Chat | src/main/kotlin/com/airline/loyalty/controller/ChatController.kt:38-74 | A blank query sets only the "Please enter a question." error, makes no `processQuery` call and leaves the session unchanged. Otherwise exactly one call is made, with the stored string id or else a fresh id, which is stored. The id used is the id in the session afterwards. The model echoes the query and then holds either the response or the generic error, never both. The view is always `chat`. |
| ChatFlow.NewConversation | src/main/kotlin/com/airline/loyalty/controller/ChatController.kt:76-85 | The fresh id overwrites the stored one, and every other session attribute is kept. The handler redirects home. |
| ChatFlow.ConversationContinues | src/main/kotlin/com/airline/loyalty/controller/ChatController.kt:51-56 | Two non-blank questions in a row are processed under the same id, and the second leaves the session unchanged. |
| ChatFlow.IndexThenChat | src/main/kotlin/com/airline/loyalty/controller/ChatController.kt:25-65 | The id the page shows is the one the next question is processed under. |
| ChatFlow.NewConversationIsUsed | src/main/kotlin/com/airline/loyalty/controller/ChatController.kt:77-80 | After a new conversation starts, both the page and the next question use the new id. |
| ChatFlow.BlankQueryStartsNothing | src/main/kotlin/com/airline/loyalty/controller/ChatController.kt:45-48 | A blank query creates no conversation and shows none. |
| ChatFlow.NonStringIdDiffers | src/main/kotlin/com/airline/loyalty/controller/ChatController.kt:31-54 | A stored attribute that is not a string breaks `index`, while `chat` treats it as missing and replaces it. |
| ChatFlow.FailuresAreIndistinguishable | src/main/kotlin/com/airline/loyalty/controller/ChatController.kt:67-71 | Any two failures of `processQuery` produce the same page and session. |
| ChatFlow.GuardrailRejectionIsMasked | src/main/kotlin/com/airline/loyalty/controller/ChatController.kt:67-71 | The guardrail's rejection reaches the user as the generic error, which differs from the rejection text, and no response is shown. |
| Mvc.MessageText | src/main/kotlin/com/airline/loyalty/controller/VectorStoreDebugController.kt:61 | An interpolated exception message is the message itself, or `null` when the exception has none. |
| VectorDebug.Enrich | src/main/kotlin/com/airline/loyalty/controller/VectorStoreDebugController.kt:44-50 | The content is a prefix of the text of length min(length, 500), or `No content` for a `null` text. The metadata has exactly the document's keys, with a `null` value as `N/A` and any other value rendered. The score is the rendered `distance` when that is a number, and `N/A` otherwise. |
| VectorDebug.EnrichKeepsShortText | src/main/kotlin/com/airline/loyalty/controller/VectorStoreDebugController.kt:46 | A text of at most 500 characters is shown whole. A longer one is cut to its first 500 characters. |
| VectorDebug.DistinctAfter | src/main/kotlin/com/airline/loyalty/controller/VectorStoreDebugController.kt:82-83 | Skipping the already-seen elements gives a list without duplicates that holds exactly the unseen elements of the input. |
| VectorDebug.Distinct | src/main/kotlin/com/airline/loyalty/controller/VectorStoreDebugController.kt:82-83 | `distinct()` has no duplicates, the same elements as its input, and at most its length. |
| VectorDebug.DistinctSnoc | src/main/kotlin/com/airline/loyalty/controller/VectorStoreDebugController.kt:82-83 | Adding an element at the end of the input appends it to the result exactly when it was not already in the input, so first occurrences are kept in order. |
| VectorDebug.DistinctIdempotent | src/main/kotlin/com/airline/loyalty/controller/VectorStoreDebugController.kt:82-83 | Applying `distinct()` twice gives the same result as applying it once. |
| VectorDebug.StringsAt | src/main/kotlin/com/airline/loyalty/controller/VectorStoreDebugController.kt:82-83 | `mapNotNull { it.metadata[key] as? String }` holds exactly the string values under the key, and is no longer than the input. |
| VectorDebug.Search | src/main/kotlin/com/airline/loyalty/controller/VectorStoreDebugController.kt:27-65 | Exactly one search is made, with the arguments as given. On failure the page shows only "Error searching: <message>". On success it shows the query, `topK`, the threshold, one enriched result per hit in hit order, and the hit count. The view is always `debug`. |
| VectorDebug.SearchRequested | src/main/kotlin/com/airline/loyalty/controller/VectorStoreDebugController.kt:27-31 | A request without `topK` searches for 5 hits, and one without `threshold` with threshold `0.0`. A given value is used as given. On success the page shows the values used. |
| VectorDebug.StatsAttrs | src/main/kotlin/com/airline/loyalty/controller/VectorStoreDebugController.kt:82-89 | `sources` and `titles` are the distinct string sources and titles in order of first occurrence. They have no duplicates and hold exactly the documents' string sources and titles. `uniqueSources` is the number of sources and at most `totalDocuments`. |
| VectorDebug.Stats | src/main/kotlin/com/airline/loyalty/controller/VectorStoreDebugController.kt:68-98 | One search is made: the fixed query, `topK` 100, threshold 0. The page shows the statistics of its hits, or "Error fetching stats: <message>". The view is always `debug`. |
| VectorDebug.NullMessageShown | src/main/kotlin/com/airline/loyalty/controller/VectorStoreDebugController.kt:59-65 | A failure without a message is shown as `null` by both handlers. |
| Text.Trim | src/main/kotlin/com/airline/loyalty/config/InputGuardrailAdvisor.kt:87 | `trim()` returns the string with a whitespace-only prefix and suffix cut off, starting and ending at non-whitespace. It is empty if and only if the string is blank. |
| Text.TrimIs | src/main/kotlin/com/airline/loyalty/config/InputGuardrailAdvisor.kt:87 | There is only one such cut, so any cut that meets the definition is the one `trim()` makes. |
| Text.AsciiUpper | src/main/kotlin/com/airline/loyalty/service/WeatherToolsService.kt:32 | `uppercase()` keeps the length and maps each character by its ASCII upper case. |
| Text.UpperCharIsLetter | src/main/kotlin/com/airline/loyalty/service/WeatherToolsService.kt:32 | An uppercased character is in 'A'..'Z' if and only if the original is an ASCII letter. |
| Text.TrimIndentOfRawString | src/main/kotlin/com/airline/loyalty/config/InputGuardrailAdvisor.kt:66 | `trimIndent()` of a raw string whose lines hold no break, with one line starting at the margin, gives exactly those lines joined by `"\n"`. |
| Text.TrimIndentOfSplitLine | src/main/kotlin/com/airline/loyalty/service/AirlineLoyaltyToolsService.kt:65-71 | If an interpolated value holds a line starting in column 0, `trimIndent()` removes only the blank first and last lines. |
| Text.TrimIndentOfIndentedSplitLine | src/main/kotlin/com/airline/loyalty/service/AirlineLoyaltyToolsService.kt:65-71 | If an interpolated value's second line is indented by `w` columns, with `w` at most 12, that line decides the common indent. `trimIndent()` then cuts `w` columns from every template line. |
| Text.TrimIndentOfRawStringHasBreak | src/main/kotlin/com/airline/loyalty/service/AirlineLoyaltyToolsService.kt:66-71 | `trimIndent()` of a raw string whose first two body lines are single lines keeps a line break, whatever the interpolated lines hold. |
| Text.LinesOfJoin | src/main/kotlin/com/airline/loyalty/service/AirlineLoyaltyToolsService.kt:71 | Splitting text into lines undoes joining lines that contain no break. |
| Text.Take | src/main/kotlin/com/airline/loyalty/controller/VectorStoreDebugController.kt:46 | `take(n)` is the prefix of length min(length, n). |
| Text.IntToStringRoundTrip | src/main/kotlin/com/airline/loyalty/service/AviationWeatherService.kt:54 | The decimal rendering of an `Int` reads back as that number. |

## Left out

- **HTTP and JSON.**
  - The weather client's HTTP transport and Jackson decoding are not modelled; the client is an oracle.
  - `ObjectMapper` serialisation is not modelled; tool replies are maps.
  - The `{"error": ...}` payloads are built by interpolation without escaping, so they are not claimed to be well-formed JSON.
- **Spring AI internals** are not modelled: the chat model, the similarity search and `SearchRequest.builder()`'s own argument checks (the last two form one oracle), `PagePdfDocumentReader`, `TokenTextSplitter`, the 20-message chat memory, tool-callback dispatch, and the `MessageChatMemoryAdvisor`'s order.
- **`DocumentLoaderService`, `AiService`, `AiConfiguration`, `SimpleLoggerAdvisor` (apart from its order) and the application bootstrap** are wiring, asynchronous loading and logging, and are not part of this model. Logging is left out everywhere.
- **`VectorStoreDebugController.debugPage`** only returns the view name.
- **`UUID.randomUUID()`** is a parameter of the chat handlers.
- **Floating-point values** (temperature, altimeter, similarity threshold, distance) are carried as opaque bit patterns. They are copied, never computed on. A metadata value's `toString()` is an input of the model.
- Text.AsciiUpper: does not model Kotlin's full Unicode `uppercase()`, which can change a string's length (`ß` becomes `SS`) and maps some non-ASCII letters to ASCII ones (`ſ` becomes `S`, dotless `ı` becomes `I`). The code-check lemmas hold for ASCII input only.
- Guardrail.VerdictSaysYes: uses `Text.AsciiUpper`, so it rejects some answers the source accepts. Kotlin's `uppercase()` maps `ſ` (U+017F) to `S`, so an answer such as `yeſ` becomes `YES` and passes the guardrail, while the model rejects it. The verdict agrees with the source on every answer whose trimmed text is ASCII.
- Text.Take: counts Dafny characters (Unicode scalar values), whereas Kotlin's `take(500)` counts UTF-16 code units. A text with characters outside the Basic Multilingual Plane can be cut at a different place, or in the middle of a surrogate pair.
- WeatherTools.UppercasedCodeCheck: states the code check for `Text.AsciiUpper`, not Kotlin's `uppercase()`. Kotlin turns `"ßAB"` into `"SSAB"` and `"kſfo"` into `"KSFO"`, so the source accepts both codes although neither is four ASCII letters; the model refuses them.
- WeatherTools.RefusedCodeMakesNoCall: holds for the model's ASCII uppercasing only. In the source, `"kſfo"` becomes `"KSFO"` and `"ßAB"` becomes `"SSAB"`, both pass the gate, and the client is called.
- Text.UpperCharIsLetter: is about `Text.UpperChar`, which maps only `a`..`z`. Kotlin's `'ſ'.uppercaseChar()` is `'S'`, so in the source a character that is not an ASCII letter can uppercase to one.
- Text.IsWhitespace: follows the JVM's `Character.isWhitespace || isSpaceChar` table for the characters listed. It does not track changes between Unicode versions.
- LoyaltyTools.LoadContent: follows the code, which rethrows a failed read from `@PostConstruct`. One failed brochure therefore stops start-up, and no tool answers.
- ChatFlow.Chat: follows the code, which stores a new conversation id before `processQuery` runs, so a failed turn still leaves the new id in the session.
- ChatFlow.GuardrailRejectionIsMasked: follows the code. The guardrail rejects by throwing `IllegalArgumentException`, which `chat` catches like any other failure, so the user sees the generic error and never the rejection text.

## Findings

| source | as written | input that shows it | evidently intended | confidence | as-written member | corrected member |
|---|---|---|---|---|---|---|
| src/main/kotlin/com/airline/loyalty/service/AirlineLoyaltyToolsService.kt:65-71 | The brochure text is interpolated into the indented raw string, and `trimIndent()` is applied to the result. The minimal common indent is the smaller of 12 and the indent of the text's continuation lines. When a continuation line starts in column 0, the template's 12-space margin stays on the heading, the blank lines and the source line. When the continuation lines are indented by `w` columns, with `w` at most 12, the template lines keep `12 - w` columns of margin and the text loses `w` columns of its own indent, so it is no longer verbatim. | Delta content `"a\nb"`: the answer is `"            Delta SkyMiles Medallion Status Qualification Information:\n            \n            a\nb\n            \n            Source: https://…"` | The template lines at column 0 with the content verbatim: heading, blank line, content, blank line, source line. | not executed | LoyaltyTools.MultiLineDeltaKeepsMargin | LoyaltyTools.DeltaQualification |
| src/main/kotlin/com/airline/loyalty/service/AirlineLoyaltyToolsService.kt:82-88 | The same interpolation before `trimIndent()` in the United answer. The common indent is again the smaller of 12 and the continuation lines' indent, so the text is either framed by the margin or stripped of its own indent. | United content `"a\nb"`: the heading, the blank lines, `a` and the source line keep the 12-space margin. | The United template at column 0 with the content verbatim. | not executed | LoyaltyTools.MultiLineUnitedKeepsMargin | LoyaltyTools.UnitedQualification |
| src/main/kotlin/com/airline/loyalty/service/AirlineLoyaltyToolsService.kt:99-111 | The same interpolation before `trimIndent()` in the comparison. The common indent is again the smaller of 12 and the continuation lines' indent, so the texts are either framed by the margin or stripped of their own indent. | Delta content `"a\nb"` and United content `"c"`: the answer starts with 12 spaces and then the comparison heading. | The comparison template at column 0 with both contents verbatim. | not executed | LoyaltyTools.MultiLineComparisonKeepsMargin | LoyaltyTools.ComparePrograms |
| src/main/kotlin/com/airline/loyalty/service/AirlineLoyaltyToolsService.kt:65-71 | The indented form of the first row: the text's continuation lines are indented by `w` columns, with `0 < w <= 12`, so `trimIndent()` cuts `w` columns from every line, the text's own lines included. | Delta content `"a\n  b"`: every template line keeps 10 spaces of margin, and the content line `"  b"` becomes `"b"`. | The template lines at column 0 with the content verbatim, its indent kept. | not executed | LoyaltyTools.IndentedContentLosesIndent | LoyaltyTools.DeltaQualification |
