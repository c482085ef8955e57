# AI English Tutor: a Dafny model of its core

The AI English tutor takes an English passage, or a photo of one, and a comprehension level
from 1 to 5. A supervisor agent first splits the passage into sentences and rates them.
Three agents then explain it in Korean Markdown: reading (slash reading), grammar and
vocabulary (word etymologies). A FastAPI backend runs the agents as a LangGraph graph and
streams their output to a Next.js client as server-sent events. The client parses the event
stream into three panels and keeps the chosen level in local storage.

This project models the core logic of both halves in Dafny and proves what the code promises.
There is one module per source file:

- `Supervisor`: the period-based fallback analysis, the clamping of difficulties, the
  first-`{`-to-last-`}` JSON slice and the early exits of the supervisor node.
- `Grammar`, `Vocabulary` and `Channel`: the token loops that feed a queue and end it with one
  `None` sentinel, their error paths, and the vocabulary agent's Markdown section parser.
  `Channel.TokenQueue` is the queue.
- `Aggregator` and `Graph`: partial-result aggregation, task routing and the graph's edges as data.
- `Streaming` and `Router`: the SSE formatters, the event-to-SSE translation and the heartbeat
  poll loop over abstract traces. Each formatter is checked against a model of an event-stream
  client, following section 9.2.6 of the WHATWG HTML Living Standard.
- `Session`: the TTL session table, as a class over a `map`, with lazy expiry.
- `Image`: the MIME and size check. The decoder is CPython's `binascii.a2b_base64` in strict
  mode (what `b64decode(..., validate=True)` calls on Python 3.13), character by character, with
  its error texts. Its partner is the base64 encoder of section 4 of RFC 4648.
- `Markdown`: the three heading normalisers, as line-level substitutions over constant tables.
- `Schemas`, `Config`, `Llm` and `Prompts`: field constraints and defaults, CORS parsing, the
  settings singleton, the model-prefix dispatch (returning a configuration record) and the
  level-instruction cache.
- `TutorStream`, `Api`, `Constants` and `LevelConfig`: the client's SSE reader hook,
  `streamAnalysis` and the `ApiError` mapping, the level tables, and the guarded level setter
  with its storage rules.
- `Wrappers`, `Text` and `Json` are shared helpers:
  - `Option` and `Result`;
  - Python and JavaScript string operations;
  - the subset of JSON values the code exchanges, with `json.dumps` printing.

Clocks, UUIDs, model replies, file contents and environment values are parameters.

Where the tests and the code disagree, the model follows the code:

- `test_llm.py` expects Anthropic clients, but `get_llm` refuses every `claude-` name.
- `test_config.py` expects Claude model defaults, but every default is `gpt-4o-mini`.
- `use-tutor-stream.test.ts` feeds `[READING]`-style data, but the hook reads named SSE events.
- `test_graph.py` imports `route_after_image`, which `graph.py` does not define.
- `test_markdown_normalizer.py:173-176` expects `# word` to become `## word`, but the pattern
  needs three to six `#` (`Markdown.SingleHashWordKept`).

A docstring also disagrees with the code, and the model again follows the code. The
normaliser's module docstring says an exception returns the original content. The code
returns the content as far as it had been normalised (`Markdown.RaisingKeepsContentSoFar`).

## Model

| member | source | states |
|---|---|---|
| Supervisor.FallbackPieces | backend/src/tutor/agents/supervisor.py:28 | every piece the fallback keeps is non-empty, already stripped and free of periods |
| Supervisor.FallbackTexts | backend/src/tutor/agents/supervisor.py:28 | one sentence text per kept piece, in order, each the piece followed by "." |
| Supervisor.FallbackEntries | backend/src/tutor/agents/supervisor.py:29 | one entry per text, in order, each with difficulty equal to the level and focus exactly ["reading"] |
| Supervisor.Fallback | backend/src/tutor/agents/supervisor.py:26-34 | the fallback is built exactly when the level is in 1..5 (the entry records refuse other difficulties); it is then a valid analysis with overall difficulty equal to the level, focus summary ["reading","grammar","vocabulary"] and the i-th entry made from the i-th kept piece |
| Supervisor.FallbackOfTwo | backend/src/tutor/agents/supervisor.py:28-29 | two period-closed sentences, the second after one space, give their two stripped texts with periods and exactly two entries |
| Supervisor.FallbackOfTwoSentences | backend/src/tutor/agents/supervisor.py:26-34 | "Hello world. This is a test." at level 3 gives the texts "Hello world." and "This is a test." and two entries |
| Supervisor.Clamp | backend/src/tutor/agents/supervisor.py:104 | the clamp lands in 1..5, keeps a value already in range and maps values below or above to 1 or 5 |
| Supervisor.ClampJson | backend/src/tutor/agents/supervisor.py:104-113 | on a decoded value: integers are clamped, booleans clamp to 1, and every other value makes the comparison raise |
| Supervisor.StringList | backend/src/tutor/agents/supervisor.py:105-114 | a `list[str]` field accepts exactly a JSON array of strings and keeps its elements in order |
| Supervisor.SentenceOf | backend/src/tutor/agents/supervisor.py:101-109 | an element that is not an object, or whose `text` is not a string, raises; a blank text is skipped; otherwise an entry is built exactly when the clamped difficulty and the `list[str]` focus can be built, and it is the element's text with that difficulty and focus; a missing difficulty gives the clamped level and a missing focus ["reading"] |
| Supervisor.SentencesOf | backend/src/tutor/agents/supervisor.py:101-109 | the comprehension raises exactly when one of its elements raises; a single element gives that element's entries; every entry is valid with non-blank text, and there are no more entries than elements |
| Supervisor.SentencesOfAppend | backend/src/tutor/agents/supervisor.py:101-109 | the comprehension over two runs of elements is the two comprehensions joined in order, and raises when either of them raises |
| Supervisor.SentenceItems | backend/src/tutor/agents/supervisor.py:107 | a missing `sentences` key iterates over nothing; any non-empty iteration is over the elements of the `sentences` array |
| Supervisor.AnalysisOf | backend/src/tutor/agents/supervisor.py:99-115 | the analysis is built exactly when the decoded value is an object whose sentences, clamped overall difficulty and `list[str]` focus summary can all be built, and it then holds exactly those three; a missing overall difficulty gives the clamped level, a missing focus summary the default list, and the result is valid |
| Supervisor.SentenceRoundTrip | backend/src/tutor/agents/supervisor.py:101-109 | a valid entry with non-blank text, written as the `{text, difficulty, focus}` object the prompt asks for, is read back as exactly that entry |
| Supervisor.SentencesRoundTrip | backend/src/tutor/agents/supervisor.py:101-109 | a list of such entries, written as a JSON array, is read back as exactly that list |
| Supervisor.AnalysisRoundTrip | backend/src/tutor/agents/supervisor.py:73-81 | a valid analysis whose sentences have non-blank texts, written in the reply format the prompt asks for, is read back as exactly that analysis at every level |
| Supervisor.StringListOfStrings | backend/src/tutor/agents/supervisor.py:105 | an array written from a list of strings is accepted as `list[str]` and gives that list back |
| Supervisor.JsonCandidate | backend/src/tutor/agents/supervisor.py:94-99 | no candidate exactly when `{` or `}` is missing; otherwise the slice runs from the first `{` to the last `}`, and it is empty exactly when that `}` precedes that `{` |
| Supervisor.Attempt | backend/src/tutor/agents/supervisor.py:62-121 | the attempt succeeds exactly when the settings load, `get_llm` accepts the supervisor model, the call returns, a brace candidate exists, it decodes and an analysis can be built from it; its result is then that analysis, which is valid |
| Supervisor.SupervisorNode | backend/src/tutor/agents/supervisor.py:37-125 | a task other than analyze or image_process, or an empty text, gives the empty update; otherwise the update is a valid analysis: a successful attempt's analysis as it is, or the fallback after a failed attempt, and the node raises only when the attempt failed and the level is outside 1..5 |
| Supervisor.FailureFallsBack | backend/src/tutor/agents/supervisor.py:94-125 | a failed model call or a reply without braces ends in the fallback analysis |
| Supervisor.ModelAnalysisReturned | backend/src/tutor/agents/supervisor.py:62-121 | a reply whose JSON candidate decodes to a valid analysis in the prompt's format makes the node return exactly that analysis |
| Aggregator.AggregatorNode | backend/src/tutor/agents/aggregator.py:18-59 | with a session id the response carries it and the three agent results unchanged; without one the handler's empty response with session id "" |
| Aggregator.NoResults | backend/src/tutor/agents/aggregator.py:40-47 | with no agent result at all the response holds only the session id |
| Graph.RouteByTask | backend/src/tutor/graph.py:23-64 | every send carries the whole state; analyze sends reading, grammar and vocabulary in that order, image_process sends image_processor, chat sends chat, and any other task sends nothing |
| Graph.MissingTaskIsAnalyze | backend/src/tutor/graph.py:47-55 | a state without a task type is dispatched to the three tutor agents |
| Graph.RoutedNodesReachEnd | backend/src/tutor/graph.py:106-131 | every target of an analyze or image_process dispatch is a registered node with an edge to the aggregator, which leads to the end; the chat target is not a registered node |
| Vocabulary.WordOf | backend/src/tutor/agents/vocabulary.py:66 | the word has no surrounding white space |
| Vocabulary.ContentOf | backend/src/tutor/agents/vocabulary.py:69-75 | the content has no surrounding white space |
| Vocabulary.SectionEntry | backend/src/tutor/agents/vocabulary.py:48-78 | an entry a section yields has a non-empty word and non-empty content, both without surrounding white space |
| Vocabulary.SectionSkipped | backend/src/tutor/agents/vocabulary.py:50-63 | a blank section, or one whose header names 금지, 원칙 or 형식, yields no entry |
| Vocabulary.FilterMapSources | backend/src/tutor/agents/vocabulary.py:48-78 | each parsed entry comes from its own input section, the source indices increase, and every section that yields an entry is among them |
| Vocabulary.ParseVocabularyWords | backend/src/tutor/agents/vocabulary.py:24-81 | the loop over the `re.split` pieces returns exactly the parser's specification `ParseWords` |
| Vocabulary.ParseWords | backend/src/tutor/agents/vocabulary.py:42-81 | at most one entry per `\n## ` piece, each with a non-empty word and content without surrounding white space |
| Vocabulary.ParsedEntries | backend/src/tutor/agents/vocabulary.py:42-81 | every parsed entry has a non-empty word and content without surrounding white space, and the entries come from distinct sections in header order |
| Vocabulary.SectionRecovered | backend/src/tutor/agents/vocabulary.py:48-78 | a rendered section, under `## ` or under nothing, yields exactly the entry it was rendered from |
| Vocabulary.SectionNoPartialSep | backend/src/tutor/agents/vocabulary.py:46 | a rendered section ends in `---`, so no separator can start inside it and run past its end |
| Vocabulary.RenderIsJoin | backend/src/tutor/agents/vocabulary.py:27-34 | the rendered reply is the join of its sections with the `\n## ` separator |
| Vocabulary.Render | backend/src/tutor/agents/vocabulary.py:27-34 | the documented layout is empty exactly for no entries and otherwise starts with `## ` |
| Vocabulary.RenderedPartsEntries | backend/src/tutor/agents/vocabulary.py:48-78 | every section of a rendered reply yields its own entry |
| Vocabulary.ParseRender | backend/src/tutor/agents/vocabulary.py:24-81 | parsing a reply in the documented `## word … ---` layout gives back exactly the listed entries, in order |
| Vocabulary.SingleLineNoEntries | backend/src/tutor/agents/vocabulary.py:59-77 | a single line that does not start with white space yields nothing, because the header removal leaves empty content |
| Vocabulary.PaddedLineIsEntry | backend/src/tutor/agents/vocabulary.py:59-78 | " ab" yields the entry ("ab", "ab"): with leading white space the header is not removed |
| Vocabulary.VocabularySetup | backend/src/tutor/agents/vocabulary.py:104-127 | the setup fails with the first failure among settings, `get_llm` with 6144 tokens, the level instructions and rendering; otherwise it gives the vocabulary prompt filled with the text, level, instructions and supervisor context |
| Vocabulary.VocabularyNode | backend/src/tutor/agents/vocabulary.py:84-154 | the node's result is the outcome function, and the given queue receives exactly the outcome's entries appended to what it held |
| Vocabulary.WordsOfReply | backend/src/tutor/agents/vocabulary.py:144-145 | the words are the parser's specification applied to the normalised reply |
| Vocabulary.VocabularyOutcome | backend/src/tutor/agents/vocabulary.py:84-154 | only the setup before the `try` raises, with its message; a failed reply gives no words and its message; the words otherwise have non-empty word and content |
| Vocabulary.VocabularyEndsQueue | backend/src/tutor/agents/vocabulary.py:129-150 | once the setup succeeds, the queue ends with exactly one sentinel, after every token; a setup failure, being outside the `try`, raises and puts none |
| Vocabulary.VocabularyWordsFromStream | backend/src/tutor/agents/vocabulary.py:130-146 | on success the tokens read off the queue concatenate to the streamed text, and the words are the parse of its normalised form |
| Vocabulary.VocabularyStreamFailure | backend/src/tutor/agents/vocabulary.py:147-154 | a failed stream still ends the queue with the sentinel and returns an empty word list with the failure's message |
| Grammar.GrammarSetup | backend/src/tutor/agents/grammar.py:39-63 | the setup fails with the first failure among settings, `get_llm`, the level instructions and rendering; otherwise it gives the grammar prompt filled with the text, level, instructions and supervisor context |
| Grammar.GrammarNode | backend/src/tutor/agents/grammar.py:23-89 | the node's update is the outcome function, and the given queue receives exactly the outcome's entries appended to what it held |
| Grammar.GrammarOutcome | backend/src/tutor/agents/grammar.py:23-89 | the node reports a failure exactly when the setup or the reply fails, with that failure's message |
| Grammar.GrammarEndsQueue | backend/src/tutor/agents/grammar.py:76-85 | whatever happens, a queue that held no sentinel ends with exactly one, as its last entry |
| Grammar.GrammarContentIsStream | backend/src/tutor/agents/grammar.py:65-80 | on success the tokens read off the queue concatenate to the streamed text, and the content is its normalised form |
| Grammar.GrammarSetupFailure | backend/src/tutor/agents/grammar.py:82-89 | a refused `claude-` grammar model gives `grammar_result` None with the refusal's message, and the queue receives only the sentinel |
| Grammar.ClaudeGrammarModelRefused | backend/src/tutor/agents/grammar.py:41 | a grammar model named `claude-…` makes the setup fail with the refusal message (see also backend/src/tutor/models/llm.py lines 53-58) |
| Channel.TokenOf | backend/src/tutor/agents/grammar.py:67-71 | a chunk contributes a token exactly when its content is a non-empty string, and the token is that string |
| Channel.Tokens | backend/src/tutor/agents/grammar.py:66-71 | a stream gives no more tokens than chunks, and none of them is empty |
| Channel.TokenQueue.Put | backend/src/tutor/agents/grammar.py:74 | `put` appends its item at the end of the queue |
| Channel.Consume | backend/src/tutor/agents/grammar.py:65-74 | the loop accumulates the concatenation of the tokens, and a supplied queue receives exactly those tokens, in order (see also backend/src/tutor/agents/vocabulary.py lines 130-139) |
| Channel.AccumulatedIsStreamText | backend/src/tutor/agents/grammar.py:66-72 | skipping empty tokens loses nothing: the accumulated text is all the stream's string content |
| Channel.StreamText | backend/src/tutor/agents/grammar.py:66-72 | a stream with no string content says nothing, and it contains at least as much text as any one chunk |
| Channel.ReceivedPushes | backend/src/tutor/agents/grammar.py:74 | the consumer reads back exactly the token sequence, which concatenates to the accumulated text |
| Channel.EndedOnce | backend/src/tutor/agents/grammar.py:76-77 | tokens followed by one sentinel leave exactly one sentinel in the queue, and it is last |
| Session.Lookup | backend/src/tutor/services/session.py:53-59 | a session is returned exactly when its id is present and the time is not past its expiry, and it is the stored session |
| Session.AfterLookup | backend/src/tutor/services/session.py:53-58 | a lookup removes the looked-up session exactly when it has expired, and keeps every other entry unchanged |
| Session.SessionManager.constructor | backend/src/tutor/services/session.py:20-27 | a new manager has no sessions and a time to live of `ttl_hours` hours in seconds |
| Session.SessionManager.Create | backend/src/tutor/services/session.py:29-42 | the drawn id is returned and stored with no messages, created at the first clock reading and expiring one time to live after the second |
| Session.SessionManager.Get | backend/src/tutor/services/session.py:44-59 | the result is `Lookup` and the new table is `AfterLookup` of the old one |
| Session.SessionManager.AddMessage | backend/src/tutor/services/session.py:61-76 | the result says whether a live session was found, and the new table is the lazy deletion followed by the append of one `{role, content}` message |
| Session.SessionManager.Delete | backend/src/tutor/services/session.py:78-90 | the result says whether the id was present, and the id is gone afterwards |
| Session.CreatedSession | backend/src/tutor/services/session.py:35-41 | the new session is present with no messages and its expiry, and every other session is kept |
| Session.LookupUnknown | backend/src/tutor/services/session.py:53-55 | an unknown id gives None and leaves the table unchanged |
| Session.LookupLive | backend/src/tutor/services/session.py:53-59 | a live session is returned and the table is left unchanged |
| Session.ExpiredStaysGone | backend/src/tutor/services/session.py:56-58 | an expired session gives None and is deleted, so every later lookup at any time gives None and changes nothing |
| Session.AddToLive | backend/src/tutor/services/session.py:72-76 | adding to a live session appends exactly one message at its end, keeps the key set and touches no other session |
| Session.AddToMissing | backend/src/tutor/services/session.py:72-74 | adding to a missing or expired session only performs the lazy deletion and stores nothing |
| Image.GroupLength | backend/src/tutor/services/image.py:45 | data characters followed by padding decode exactly when the data count is a multiple of four, or leaves two with exactly two `=`, or three with exactly one `=`; the result is the whole bytes in six bits per data character |
| Image.EndOfInput | backend/src/tutor/services/image.py:45 | at the end of the input the decoder succeeds exactly when no group is started, with the bytes written so far |
| Image.ScanFrom | backend/src/tutor/services/image.py:45 | a successful pass of the strict decoder's loop gives a non-negative byte count |
| Image.ScanData | backend/src/tutor/services/image.py:45 | `n` data characters move the decoder to position `n` mod 4 of its group, with three bytes written per complete group and one less than the characters of a started group |
| Image.PaddingAfterData | backend/src/tutor/services/image.py:45 | a run of `=` that ends the text after the data ends decoding as `GroupLength` says |
| Image.DecodedLength | backend/src/tutor/services/image.py:45 | strict decoding succeeds only on ASCII text that does not start with `=` |
| Image.ScanShape | backend/src/tutor/services/image.py:45 | when the decoder's loop succeeds, every character is in the alphabet or `=`, and after a `=` only `=` follows |
| Image.DecodedLengthOk | backend/src/tutor/services/image.py:45 | every text strict decoding accepts is alphabet characters followed by its trailing `=`, decoded as `GroupLength` says |
| Image.PaddedDecodes | backend/src/tutor/services/image.py:45 | alphabet characters followed by any run of `=`, with no `=` first, decode as `GroupLength` says |
| Image.ExcessDataRefused | backend/src/tutor/services/image.py:45 | anything after the `=` that completes a group of two or three data characters is refused with "Excess data after padding" |
| Image.NonAlphabetRefused | backend/src/tutor/services/image.py:45 | an ASCII character outside the alphabet, other than `=`, is refused with "Only base64 data is allowed" |
| Image.DiscontinuousRefused | backend/src/tutor/services/image.py:45 | a data character after a `=` that did not complete its group is refused with "Discontinuous padding not allowed" |
| Image.PaddingOnlyRefused | backend/src/tutor/services/image.py:45 | "=", "==" and "===" are refused with "Leading padding not allowed" |
| Image.ExcessDataCases | backend/src/tutor/services/image.py:45 | "abc==", "ab===" and "abc=a" are refused with "Excess data after padding" |
| Image.DiscontinuousCases | backend/src/tutor/services/image.py:45 | "ab=c=" is refused with "Discontinuous padding not allowed", and a line feed inside the data with "Only base64 data is allowed" |
| Image.EncodeData | backend/src/tutor/services/image.py:45 | the encoder's data characters are in the alphabet and number four for every three bytes plus two or three for a short last group |
| Image.Encode | backend/src/tutor/services/image.py:45 | a padded encoding has four characters for every three bytes or part of three, all in the alphabet except at most two trailing `=` |
| Image.EncodeDecodes | backend/src/tutor/services/image.py:45 | strict decoding accepts every standard encoding, and its decoded size is the number of bytes encoded |
| Image.RfcCanonicalDecodes | backend/src/tutor/services/image.py:45 | on text that section 4 of RFC 4648 accepts, the decoded size is three bytes per group of four less one per `=` |
| Image.ExcessPaddingAccepted | backend/src/tutor/services/image.py:45 | the decoder also accepts any run of `=` after complete groups (such as "abcd=="), which section 4 of RFC 4648 does not, and gives three bytes per group |
| Image.LeadingPaddingInvalid | backend/src/tutor/services/image.py:45-55 | image data starting with `=` is invalid with the message "Invalid base64 data: Leading padding not allowed" |
| Image.Mebibytes | backend/src/tutor/services/image.py:50 | the size text has two decimals after its point |
| Image.ValidateImage | backend/src/tutor/services/image.py:19-55 | a type outside {image/jpeg, image/png, image/webp} is refused before the data is examined, with a message naming it; otherwise the result is valid exactly when strict decoding succeeds with at most 10 MiB, an undecodable text gets the "Invalid base64 data: " message and an oversized one a message containing "exceeds limit"; valid exactly when the message is "" |
| Image.SizeLimitInBytes | backend/src/tutor/services/image.py:46-47 | the float test `bytes / 2**20 > 10` holds exactly when the size exceeds 10485760 bytes |
| Image.EncodedImageValid | backend/src/tutor/services/image.py:37-55 | a standard encoding of at most 10 MiB with an allowed type is valid with the empty message |
| Image.PreprocessImage | backend/src/tutor/services/image.py:58-78 | the result has exactly the two keys `type` = "image_url" and `image_url`, whose `url` is "data:" + type + ";base64," + data |
| Image.DataUrlRoundTrip | backend/src/tutor/services/image.py:77 | the MIME type and the data are both recovered from the URL when the type holds no `;` |
| Image.ParseDataUrl | backend/src/tutor/services/image.py:77 | whatever is read back rebuilds the URL exactly, with a type free of `;`; a `data:` URL without `;` is refused |
| Json.DumpsHasNoLineBreak | backend/src/tutor/services/streaming.py:24 | the `json.dumps` text placed on the `data:` line never holds a line feed or a carriage return, so it stays on one line |
| Json.GetDefault | backend/src/tutor/agents/supervisor.py:103-114 | `dict.get(key, default)` gives the member's value when the key is present and the default otherwise |
| Streaming.FeedFrame | backend/src/tutor/services/streaming.py:24 | a client reading one `event:`/`data:` frame and its blank line dispatches exactly that event and returns to its initial state |
| Streaming.FormatSseEvent | backend/src/tutor/services/streaming.py:10-24 | for a single-line, non-empty type, a conforming event-stream client reading the text dispatches exactly one event with that type and the `json.dumps` text of the payload |
| Streaming.FormatSseEventThenAnything | backend/src/tutor/services/streaming.py:10-24 | the event ends in a blank line, so whatever text follows it is read as if the stream had started there: the client dispatches that one event and then exactly what the rest yields |
| Streaming.FrameParses | backend/src/tutor/services/streaming.py:24 | a frame with a line-free type and a printable payload is read back as that one event, whatever follows it |
| Streaming.EventTypesLineFree | backend/src/tutor/services/streaming.py:36-121 | every event type the server uses, `vocabulary_error` included, is a single line |
| Streaming.FormatReadingChunk | backend/src/tutor/services/streaming.py:27-36 | the client reads one `reading_chunk` event carrying the payload's JSON text |
| Streaming.FormatGrammarChunk | backend/src/tutor/services/streaming.py:39-48 | the client reads one `grammar_chunk` event carrying the payload's JSON text |
| Streaming.FormatVocabularyChunk | backend/src/tutor/services/streaming.py:51-60 | the client reads one `vocabulary_chunk` event carrying the payload's JSON text |
| Streaming.FormatDoneEvent | backend/src/tutor/services/streaming.py:63-72 | the client reads one `done` event whose payload is `{"session_id": id, "status": "complete"}` |
| Streaming.FormatErrorEvent | backend/src/tutor/services/streaming.py:75-85 | the client reads one `error` event whose payload carries the message and the code |
| Streaming.FormatReadingToken | backend/src/tutor/services/streaming.py:88-97 | the client reads one `reading_token` event whose payload is `{"token": token}` |
| Streaming.FormatGrammarToken | backend/src/tutor/services/streaming.py:100-109 | the client reads one `grammar_token` event whose payload is `{"token": token}` |
| Streaming.FormatVocabularyError | backend/src/tutor/routers/tutor.py:28-91 | the corrected formatter: the client reads one `vocabulary_error` event whose payload is `{"message": message}` |
| Streaming.FormatSectionDone | backend/src/tutor/services/streaming.py:112-121 | for a line-free section name, the client reads one event of type name + "_done" whose payload is `{"section": name}` |
| Streaming.HeartbeatDispatchesNothing | backend/src/tutor/routers/tutor.py:37 | the heartbeat comment dispatches no event at all |
| Router.StreamGraphEvents | backend/src/tutor/routers/tutor.py:40-111 | the translation loop produces exactly `GraphOutput`: each item's events in order, then `done`, or one `processing_error` event at the first item that raises, or nothing more when cancelled |
| Router.Translate | backend/src/tutor/routers/tutor.py:59-104 | the idle marker is the heartbeat comment; an item raises exactly when it lacks `event`, or is a model-stream event without `data`, and the message is the quoted key |
| Router.GraphOutput | backend/src/tutor/routers/tutor.py:58-111 | unless cancelled the stream is never empty; with no failing item it ends with `done`; a failing item makes it end with an event other than `done` |
| Router.DoneKind | backend/src/tutor/routers/tutor.py:106 | the final event is read by clients as a `done` event |
| Router.ErrorKind | backend/src/tutor/routers/tutor.py:111 | the failure event is read by clients as an `error` event |
| Router.SectionDoneOrdinary | backend/src/tutor/routers/tutor.py:82-94 | the three section-done events are neither `done` nor `error` events |
| Router.IdleIsHeartbeat | backend/src/tutor/routers/tutor.py:36-63 | an idle marker produces exactly the heartbeat comment, which dispatches nothing |
| Router.TokenEvents | backend/src/tutor/routers/tutor.py:68-77 | a non-empty token from the reading or grammar node becomes that node's token event; from any other node it becomes nothing |
| Router.SilentTokens | backend/src/tutor/routers/tutor.py:70-77 | a missing chunk, an empty token or a token from another node produces no output |
| Router.VocabularyEndTranslated | backend/src/tutor/routers/tutor.py:86-94 | the end of the vocabulary node is translated by `VocabularyEnd`, a missing `data` key counting as no output |
| Router.VocabularyEndEvents | backend/src/tutor/routers/tutor.py:86-94 | `vocabulary_done` always comes last; before it the error event when the error text is non-empty, else the chunk event when the word list is non-empty, else nothing |
| Router.VocabularyUpdateEvents | backend/src/tutor/routers/tutor.py:86-94 | the vocabulary agent's failure reaches the client as its message; a run that parsed no words reports only `vocabulary_done` (see also backend/src/tutor/agents/vocabulary.py lines 146-154) |
| Router.AggregatorVocabulary | backend/src/tutor/routers/tutor.py:95-104 | the aggregator's vocabulary is sent as a chunk whenever it is present, even when its word list is empty, and nothing is sent when it is absent |
| Router.TranslateOrdinary | backend/src/tutor/routers/tutor.py:59-104 | no item ever produces a `done` or an `error` event |
| Router.OrdinaryBody | backend/src/tutor/routers/tutor.py:58-109 | a run that ends normally is the cancelled run's output followed by `done`, and that output holds no `done` or `error` event |
| Router.FinishedEndsWithDone | backend/src/tutor/routers/tutor.py:106 | a stream that ends normally ends with the `done` event carrying the session id, and no earlier event is `done` or `error` |
| Router.CancelledAddsNothing | backend/src/tutor/routers/tutor.py:108-109 | a cancelled stream emits its items' events and neither `done` nor `error` |
| Router.RaisedEndsWithError | backend/src/tutor/routers/tutor.py:110-111 | an exception at item k ends the output with exactly one `processing_error` event carrying its text, after only ordinary events, whether or not cancellation would have followed |
| Router.StreamWithHeartbeat | backend/src/tutor/routers/tutor.py:114-162 | the poll loop yields exactly `Heartbeats(polls)` and stops as it says; the `finally` cancels the producer exactly when it has not finished |
| Router.EndpointOutput | backend/src/tutor/routers/tutor.py:58-162 | when the wrapper stops by itself the endpoint says something, and when it yielded only idle markers it ends with `done` |
| Router.HeartbeatsBeforeFailure | backend/src/tutor/routers/tutor.py:139-155 | up to a timeout that finds the producer failed, each event is yielded and each other timeout is one idle marker, and that timeout stops the loop |
| Router.ProducerFailureEndsWithDone | backend/src/tutor/routers/tutor.py:106-154 | a graph that raises is reported as a success: the endpoint output ends with `done`, not with an error |
| Router.HeartbeatsCount | backend/src/tutor/routers/tutor.py:139-155 | the wrapper yields at most one item per poll and stops exactly when it sees the sentinel or a failed producer |
| Router.RouterImportFails | backend/src/tutor/routers/tutor.py:21-29 | the router imports `format_vocabulary_error`, which the streaming service does not define, so the import fails (see also backend/src/tutor/services/streaming.py lines 10-121) |
| Router.CorrectedImportSucceeds | backend/src/tutor/routers/tutor.py:21-29 | with the formatter defined, the import succeeds and every `vocabulary_error` event is read as that type |
| TutorStream.Started | src/hooks/use-tutor-stream.ts:38-45 | before fetching, the three contents and the error are cleared and the hook is streaming |
| TutorStream.HandleLine | src/hooks/use-tutor-stream.ts:67-116 | one line never touches the error; once stopped the hook stays stopped; the line that stops it (a `data: ` line under `done`) also ends streaming |
| TutorStream.HandleLines | src/hooks/use-tutor-stream.ts:67-116 | the lines never touch the error; after the early `return` no further line changes anything; stopping ends streaming |
| TutorStream.ReadChunks | src/hooks/use-tutor-stream.ts:59-117 | reading chunks never touches the error; after the early `return` no chunk read later changes anything; stopping ends streaming |
| TutorStream.ApplyData | src/hooks/use-tutor-stream.ts:88-114 | a parsed payload never changes streaming or the error, and each event type changes only its own content |
| TutorStream.Pick | src/hooks/use-tutor-stream.ts:94 | the chain of logical ors picks the first field when it is truthy, else the second when truthy, else the pretty-printed payload |
| TutorStream.Caught | src/hooks/use-tutor-stream.ts:124-131 | the `catch` keeps the contents, and changes the state only for an error other than `AbortError`, which it records with streaming off |
| TutorStream.StreamOutcome | src/hooks/use-tutor-stream.ts:28-135 | a body read to its end stops streaming; a recorded error is never an `AbortError`; while still streaming no error is recorded |
| TutorStream.SynonymText | src/hooks/use-tutor-stream.ts:176 | `synonyms?.slice(0, 3).join(", ")` succeeds exactly for a missing or null list or an array, and an empty array gives "" |
| TutorStream.EntryText | src/hooks/use-tutor-stream.ts:175-180 | an entry is written exactly when the word is not null and its synonyms are missing, null or an array; otherwise the callback throws |
| TutorStream.FormatVocabularyData | src/hooks/use-tutor-stream.ts:162-183 | a `null` payload throws, and a non-empty result comes only from a non-empty `words` array |
| TutorStream.TutorStreamHook.constructor | src/hooks/use-tutor-stream.ts:18-26 | the hook starts in the initial state with no controller |
| TutorStream.TutorStreamHook.Reset | src/hooks/use-tutor-stream.ts:137-149 | `reset` clears the controller and restores the initial state |
| TutorStream.TutorStreamHook.StartStream | src/hooks/use-tutor-stream.ts:28-135 | after the read loop and the line loop the state is `StreamOutcome` of the old state and the response, and the controller is cleared |
| TutorStream.TutorStreamHook.ReadLines | src/hooks/use-tutor-stream.ts:67-116 | the loop over one chunk's lines leaves the state, the current event and the early `return` exactly as `HandleLines` says, and does not touch the controller |
| TutorStream.ChunkStep | src/hooks/use-tutor-stream.ts:63-65 | after each chunk the complete lines, rejoined with line breaks and followed by the new buffer, are exactly the old buffer plus the chunk, and the buffer holds no line break |
| TutorStream.LinesThenRest | src/hooks/use-tutor-stream.ts:63-67 | the lines completed by one chunk come first among the complete lines of everything read from it on |
| TutorStream.ChunkingIrrelevant | src/hooks/use-tutor-stream.ts:59-117 | however the text is cut into chunks, the line handler sees exactly the complete lines of the whole text, in order |
| TutorStream.ReadChunksLines | src/hooks/use-tutor-stream.ts:59-117 | reading a stream chunk by chunk hands the line handler, in order, exactly the complete lines that the buffer yields after each chunk |
| TutorStream.LinesReadSplit | src/hooks/use-tutor-stream.ts:56-65 | the complete lines collected over all chunks are every newline-terminated piece of the concatenated text, the unterminated tail excepted |
| TutorStream.StreamedLines | src/hooks/use-tutor-stream.ts:56-117 | the whole stream is handled as the complete lines of the concatenated chunks; a last line without a line break is never handled |
| TutorStream.EventLine | src/hooks/use-tutor-stream.ts:69-72 | an `event: ` line only sets the current event type, to the trimmed rest of the line |
| TutorStream.EventPersists | src/hooks/use-tutor-stream.ts:57-72 | any other line keeps the current event type |
| TutorStream.DoneStops | src/hooks/use-tutor-stream.ts:79-85 | a `data: ` line under `done` ends streaming and stops all further processing, whatever follows |
| TutorStream.OtherLinesIgnored | src/hooks/use-tutor-stream.ts:67-116 | a line that is neither an `event: ` nor a `data: ` line, such as the heartbeat comment or a blank line, changes nothing |
| TutorStream.ReadingChunk | src/hooks/use-tutor-stream.ts:91-95 | `reading_chunk` changes only the reading content: to a truthy `summary`, else a truthy `content`, else the pretty-printed payload |
| TutorStream.GrammarChunk | src/hooks/use-tutor-stream.ts:96-100 | `grammar_chunk` changes only the grammar content: to a truthy `analysis`, else a truthy `content`, else the pretty-printed payload |
| TutorStream.UnchangedData | src/hooks/use-tutor-stream.ts:88-114 | malformed JSON, a `null` payload and an event type the handler does not know leave the state unchanged |
| TutorStream.TokenEventsIgnored | src/hooks/use-tutor-stream.ts:91-110 | the token and `*_done` events the server streams never change what the hook shows (see also backend/src/tutor/routers/tutor.py lines 74-94) |
| TutorStream.StartClears | src/hooks/use-tutor-stream.ts:38-148 | starting clears the contents and the error and sets streaming, which is the reset state with streaming on |
| TutorStream.AbortLeavesStreaming | src/hooks/use-tutor-stream.ts:124-131 | a fetch rejected with an `AbortError` leaves the hook streaming, with cleared contents and no error |
| TutorStream.NoBodyError | src/hooks/use-tutor-stream.ts:52-131 | a response without a body stops streaming with the "Response body is not readable" error |
| TutorStream.EntryTexts | src/hooks/use-tutor-stream.ts:174-181 | when no entry throws there is one text per word |
| TutorStream.NoWordsEmpty | src/hooks/use-tutor-stream.ts:170-172 | a missing, falsy or empty word list, or a word object whose `length` is the number 0, gives "" |
| TutorStream.NonArrayWordsThrow | src/hooks/use-tutor-stream.ts:170-182 | a truthy word list that is not an array and whose `length` is not 0 throws, so the shown vocabulary is left as it was |
| TutorStream.EntriesNumbered | src/hooks/use-tutor-stream.ts:175-177 | each entry starts with its number, counted from the first, followed by ". **" |
| TutorStream.WordsNumbered | src/hooks/use-tutor-stream.ts:170-182 | a list of n words gives n entries numbered 1 to n, joined by blank lines |
| TutorStream.ThreeSynonyms | src/hooks/use-tutor-stream.ts:176 | only the first three synonyms are shown |
| TutorStream.UnknownFields | src/hooks/use-tutor-stream.ts:176-180 | a word with none of `term`, `meaning`, `usage` and `synonyms` is shown as "Unknown" with every field "N/A" |
| TutorStream.ServerEntryFields | backend/src/tutor/schemas.py:63-67 | the server's word objects carry only `word` and `content` |
| TutorStream.ServerEntriesUnknown | src/hooks/use-tutor-stream.ts:174-182 | every word object the server sends is shown as the unknown entry (see also backend/src/tutor/schemas.py lines 63-67) |
| TutorStream.ServerVocabularyShownUnknown | src/hooks/use-tutor-stream.ts:160-182 | a non-empty vocabulary chunk from the server is always shown as n "Unknown" entries (see also backend/src/tutor/routers/tutor.py line 93) |
| Api.DataLines | src/lib/api.ts:110-115 | a sequence of lines yields at most one item per line |
| Api.StreamAnalysis | src/lib/api.ts:91-121 | the generator yields and throws exactly as `StreamOutcome` says, and releases the reader lock exactly when it obtained a reader |
| Api.ChunksData | src/lib/api.ts:103-117 | the loop over the chunks never yields `[DONE]` itself |
| Api.StreamOutcome | src/lib/api.ts:91-121 | a rejected fetch or a missing body throws before anything is yielded; once `[DONE]` has been read nothing is thrown; `[DONE]` is never yielded |
| Api.ChunkData | src/lib/api.ts:107-116 | the inner loop over one chunk's lines yields `DataLines` of that chunk and reports the early `return` |
| Api.OtherLinesSilent | src/lib/api.ts:111 | a line not starting with "data: " yields nothing and cannot end the stream |
| Api.DataLineYields | src/lib/api.ts:111-114 | a `data: ` line yields its remainder ahead of what the following lines yield |
| Api.DoneEndsLines | src/lib/api.ts:113 | `[DONE]` is not yielded and no later line is looked at |
| Api.DoneIgnoresLaterChunks | src/lib/api.ts:113 | once `[DONE]` has been read, further chunks change nothing |
| Api.YieldedAreDataPayloads | src/lib/api.ts:110-115 | every yielded item is the remainder of one of the input's `data: ` lines and is not `[DONE]` |
| Api.FrameYieldsPayload | src/lib/api.ts:107-115 | a whole server frame in one chunk yields exactly its JSON payload and drops the event type (see also backend/src/tutor/services/streaming.py line 24) |
| Api.BrokenLineLost | src/lib/api.ts:107-108 | a `data: ` line broken across two chunks yields nothing, while the same text in one chunk yields its payload |
| Api.ErrorData | src/lib/api.ts:33 | an unparsable error body stands for `{message: "Unknown error"}` with no code |
| Api.ErrorMessage | src/lib/api.ts:34 | `errorData.message || fallback`: a truthy message is kept as the value it is, and a missing or falsy one is replaced by the fallback |
| Api.ShowsMessage | src/lib/api.ts:33-34 | a body that is not JSON shows exactly "Unknown error"; what is shown is a truthy message or the fallback |
| Api.RequestResult | src/lib/api.ts:32-37 | an ok reply gives its parsed body, or fails when the body is not JSON; a non-ok reply fails exactly when its error body is not `null` (a `null` body throws a `TypeError`), with the reply's status, the message `message || fallback` and the body's `code` |
| Api.AnalyzeText | src/lib/api.ts:20-38 | the call succeeds exactly when the reply is ok and its body parses, and gives that body; a non-ok reply whose body is not `null` raises `ApiError` with the HTTP status, the body's message when it is truthy and "Analysis failed" otherwise, and the body's `code` |
| Api.AnalyzeImage | src/lib/api.ts:43-62 | the call succeeds exactly when the reply is ok and its body parses, and gives that body; a non-ok reply whose body is not `null` raises `ApiError` with the HTTP status, the body's message when it is truthy and "Image analysis failed" otherwise, and the body's `code` |
| Api.SendChat | src/lib/api.ts:67-86 | the call succeeds exactly when the reply is ok and its body parses, and gives that body; a non-ok reply whose body is not `null` raises `ApiError` with the HTTP status, the body's message when it is truthy and "Chat request failed" otherwise, and the body's `code` |
| Api.UnparsableErrorBody | src/lib/api.ts:33-34 | an error body that is not JSON gives "Unknown error", never the fallback |
| Api.ServerMessageCarried | src/lib/api.ts:34 | for every error body whose `message` is truthy, the `ApiError` carries the status, that message and the body's `code` unchanged |
| Api.DetailBodyShowsFallback | src/lib/api.ts:34 | the server's `{"detail": …}` error bodies have no `message`, so the client always shows "Analysis failed" for them (see also backend/src/tutor/routers/tutor.py lines 270-273) |
| Api.FalsyMessageFallsBack | src/lib/api.ts:34 | for every error body whose `message` is missing or falsy, the `ApiError` carries the status, the fallback and the body's `code` |
| Schemas.LevelErrors | backend/src/tutor/schemas.py:20 | a level field is refused exactly outside 1..5, with a "greater than or equal" error below and a "less than or equal" error above |
| Schemas.TextErrors | backend/src/tutor/schemas.py:19 | the text is refused exactly when it is shorter than 10 or longer than 5000 characters, with the matching error |
| Schemas.ValidateAnalyzeRequest | backend/src/tutor/schemas.py:16-20 | a request validates exactly when both fields are in range, and otherwise reports the text errors followed by the level errors |
| Schemas.ValidateAnalyzeImageRequest | backend/src/tutor/schemas.py:23-30 | a request validates exactly when the MIME type is one of the three image types and the level is in range; an unknown MIME type is always reported |
| Schemas.ValidateChatRequest | backend/src/tutor/schemas.py:33-38 | only the level can make a chat request invalid |
| Schemas.NewSentenceEntry | backend/src/tutor/schemas.py:44-49 | a new entry has no focus areas and is valid exactly when its difficulty is in 1..5 |
| Schemas.DefaultSupervisorAnalysis | backend/src/tutor/schemas.py:52-57 | the default analysis has no sentences, overall difficulty 3 and no focus summary, and is valid |
| Schemas.NewAnalyzeResponse | backend/src/tutor/schemas.py:91-99 | a new response carries its session id and none of the three results |
| Schemas.EmptyVocabularyResult | backend/src/tutor/schemas.py:82-85 | the default vocabulary result has no words |
| Schemas.WordEntriesJson | backend/src/tutor/schemas.py:63-85 | dumping a word list gives one `{word, content}` object per word, in order |
| Config.DefaultSettings | backend/src/tutor/config.py:35-57 | with only the OpenAI key set, every model is "gpt-4o-mini", the server listens on 0.0.0.0:8000, sessions live 24 hours and there is no GLM key |
| Config.TrimChars | backend/src/tutor/config.py:73 | stripping adds no character |
| Config.StrippedNonBlankClean | backend/src/tutor/config.py:73 | every kept origin is non-empty and has nothing left to strip |
| Config.StrippedNonBlankWithout | backend/src/tutor/config.py:73 | stripping cannot bring in a character none of the pieces had |
| Config.CorsOrigins | backend/src/tutor/config.py:66-73 | every parsed origin is non-empty, stripped and free of commas |
| Config.StrippedNonBlankKeeps | backend/src/tutor/config.py:73 | pieces that are already clean pass through unchanged |
| Config.CorsOriginsIdempotent | backend/src/tutor/config.py:66-73 | joining the parsed list with commas and parsing it again gives the same list |
| Config.SingleOrigin | backend/src/tutor/config.py:73 | one origin without a comma or surrounding space parses to itself alone |
| Config.DefaultCorsOrigins | backend/src/tutor/config.py:54-73 | the default value parses to the single origin "http://localhost:3000" |
| Config.SettingsHolder.constructor | backend/src/tutor/config.py:77 | the global slot starts empty |
| Config.SettingsHolder.GetSettings | backend/src/tutor/config.py:80-91 | a filled slot is returned unchanged; an empty slot is filled from the environment when that succeeds, and a failure is raised and leaves it empty |
| Llm.GetLlm | backend/src/tutor/models/llm.py:21-88 | a "claude-" name is refused before the settings are read; a client is returned exactly for "gpt-" names and for "glm-" names with a GLM key, with 2 retries, streaming, and 4096 tokens unless given; every other name is refused |
| Llm.PrefixesExclusive | backend/src/tutor/models/llm.py:53-72 | no model name has two of the three known prefixes |
| Llm.DefaultModelsAccepted | backend/src/tutor/models/llm.py:62-70 | with the default settings every configured model gets an OpenAI client (see also backend/src/tutor/config.py lines 43-47) |
| Llm.ReadingModelRefused | backend/src/tutor/models/llm.py:53-58 | the reading agent's hard-coded "claude-sonnet-4-5" is always refused (see also backend/src/tutor/agents/reading.py line 37) |
| Prompts.CacheFromData | backend/src/tutor/prompts.py:103-104 | the cached table is `None` only when the file sets `levels` to null, and empty when it has no `levels` key |
| Prompts.Lookup | backend/src/tutor/prompts.py:107-111 | a level is refused with "Invalid comprehension level" exactly when the cache is `None` or lacks it; otherwise its instructions are returned, or "" when it has none |
| Prompts.NoLevelsKeyRefusesAll | backend/src/tutor/prompts.py:104-108 | a file without a `levels` key makes every level invalid |
| Prompts.LevelInstructionCache.constructor | backend/src/tutor/prompts.py:85-111 | the cache starts empty, with no file read yet |
| Prompts.LevelInstructionCache.GetLevelInstructions | backend/src/tutor/prompts.py:85-111 | the file is read only while the cache is empty; a failed read is raised and leaves the cache empty; the answer is always the lookup against the cache |
| Prompts.LoadedOnce | backend/src/tutor/prompts.py:101-111 | once a table is cached, two calls read nothing more and answer from the same table |
| Prompts.SupervisorContext | backend/src/tutor/agents/vocabulary.py:111-119 | without a pre-analysis the block is empty; with one it names the overall difficulty out of 5 and ends with the comma-joined focus summary (see also backend/src/tutor/agents/grammar.py lines 47-55) |
| Constants.FindLevel | src/lib/constants.ts:53 | `find` returns the first definition with the level, and nothing exactly when no definition has it |
| Constants.LevelsNumbered | src/lib/constants.ts:13-39 | there are five definitions, numbered 1 to 5 in order |
| Constants.GetLevelLabel | src/lib/constants.ts:52-55 | a level in 1..5 gets its own label, any other number the level-3 label "중급" |
| Constants.EndpointsUnderPrefix | src/lib/constants.ts:4-8 | all three endpoints lie under "/api/tutor" |
| LevelConfig.JsParseInt | src/hooks/use-level-config.ts:17 | `parseInt` yields a number only from a string holding a digit |
| LevelConfig.JsParseIntOfNatToString | src/hooks/use-level-config.ts:17-26 | `parseInt(String(n), 10)` gives back n |
| LevelConfig.RestoredLevel | src/hooks/use-level-config.ts:14-22 | the restored level is always in 1..5: the stored number when it parses to one, else the default 3 |
| LevelConfig.PersistedLevelRestores | src/hooks/use-level-config.ts:14-27 | a level that was written to storage is restored as the same level |
| LevelConfig.LevelConfig.Mount | src/hooks/use-level-config.ts:11-27 | mounting writes the default "3", restores the stored level, and writes it again when it differs |
| LevelConfig.LevelConfig.SetLevel | src/hooks/use-level-config.ts:25-33 | an in-range level is taken and persisted, an out-of-range one is ignored, and storage is written only when the level changes |
| LevelConfig.LevelConfig.LevelLabel | src/hooks/use-level-config.ts:35 | the label is the definition of the current level |
| Markdown.SpaceRun | backend/src/tutor/utils/markdown_normalizer.py:76 | `\s*` takes the longest run of white space |
| Markdown.HashRun | backend/src/tutor/utils/markdown_normalizer.py:82 | `#+` takes the longest run of `#` |
| Markdown.WordRun | backend/src/tutor/utils/markdown_normalizer.py:133 | `[A-Za-z0-9\s\-]*` takes the longest run of word characters |
| Markdown.AfterSpaces | backend/src/tutor/utils/markdown_normalizer.py:82 | `\s+` needs at least one white-space character and leaves a rest that does not start with one |
| Markdown.BodyCapture | backend/src/tutor/utils/markdown_normalizer.py:76-188 | a matched body starts as `문장`, the name, the digit or an ASCII letter requires, and its group has the shape that body captures |
| Markdown.TargetProduced | backend/src/tutor/utils/markdown_normalizer.py:76-83 | a substitution's result is a replacement its pattern writes |
| Markdown.Forms | backend/src/tutor/utils/markdown_normalizer.py:76-192 | every heading family is tried in the same five forms, in order: bold, plain with a colon, plain, too shallow, too deep |
| Markdown.DropBlankLines | backend/src/tutor/utils/markdown_normalizer.py:76-83 | the blank lines a trailing `\s*$` swallows are exactly the leading blank lines that are removed |
| Markdown.SubLines | backend/src/tutor/utils/markdown_normalizer.py:76 | a substitution on non-empty content leaves at least one line |
| Markdown.SubLinesOutput | backend/src/tutor/utils/markdown_normalizer.py:76-83 | every line left by a substitution is an unmatched input line or a replacement it wrote |
| Markdown.SubLinesUnmatched | backend/src/tutor/utils/markdown_normalizer.py:76-83 | a substitution that matches no line changes nothing |
| Markdown.CaptureHasNoLineBreak | backend/src/tutor/utils/markdown_normalizer.py:76-83 | in the line-wise model a captured group never holds a line feed (Python's `\s` can take one: see "Left out") |
| Markdown.SubLinesNoLineBreaks | backend/src/tutor/utils/markdown_normalizer.py:76-83 | substituting a replacement without line feeds keeps every line free of them |
| Markdown.SubAllAsLines | backend/src/tutor/utils/markdown_normalizer.py:73-84 | in the line-wise model, the chain of substitutions on the content is the same chain applied to its lines one after another (a match that crosses a line feed is not modelled: see "Left out") |
| Markdown.SubAllAppend | backend/src/tutor/utils/markdown_normalizer.py:73-122 | running two lists of substitutions in turn is running their concatenation |
| Markdown.InsertBlankLines | backend/src/tutor/utils/markdown_normalizer.py:196-202 | the corrected blank-line pass keeps the first line and writes only input lines and blank lines |
| Markdown.InsertBlankLinesSpaced | backend/src/tutor/utils/markdown_normalizer.py:196-202 | after the corrected pass every heading is followed by a blank line or ends the content |
| Markdown.InsertBlankLinesOfSpaced | backend/src/tutor/utils/markdown_normalizer.py:196-202 | content that already has those blank lines is left unchanged |
| Markdown.InsertBlankLinesIdempotent | backend/src/tutor/utils/markdown_normalizer.py:196-202 | the corrected pass applied twice is the pass applied once |
| Markdown.InsertBlankLinesOnlyInserts | backend/src/tutor/utils/markdown_normalizer.py:196-202 | the corrected pass never shortens the content, and changes it exactly when a heading lacks its blank line |
| Markdown.InsertBlankLinesAfterHeading | backend/src/tutor/utils/markdown_normalizer.py:199-202 | a heading followed directly by a non-empty line gets one blank line after it |
| Markdown.InsertBlankLinesKeepsBlank | backend/src/tutor/utils/markdown_normalizer.py:199-202 | a heading already followed by a blank line gets no second one |
| Markdown.AsWrittenSkipsSecondHeading | backend/src/tutor/utils/markdown_normalizer.py:196-202 | as written, "## a", "## b", "c" becomes "## a", "", "## b", "c": the second heading gets no blank line, and a second run still changes the output |
| Markdown.CorrectedSpacesBothHeadings | backend/src/tutor/utils/markdown_normalizer.py:196-202 | the corrected pass gives both of those headings their blank line |
| Markdown.NotStartsWithLonger | backend/src/tutor/utils/markdown_normalizer.py:76-83 | a line starting with one prefix does not start with a longer one that does not extend it |
| Markdown.PatternOnHeading | backend/src/tutor/utils/markdown_normalizer.py:82-188 | on a heading line only a `#{lo,hi}` pattern whose range holds the line's level can match, and then its body is matched against the heading text |
| Markdown.EmptyLineUnmatched | backend/src/tutor/utils/markdown_normalizer.py:76-192 | no pattern matches an empty line |
| Markdown.SubAllLinesClean | backend/src/tutor/utils/markdown_normalizer.py:73-122 | each substitution keeps the invariant that a line matches no pattern at all, or none of the passes already run |
| Markdown.SubAllLinesUnmatched | backend/src/tutor/utils/markdown_normalizer.py:73-84 | substitutions that match no line leave the content as it is |
| Markdown.SubAllLinesShape | backend/src/tutor/utils/markdown_normalizer.py:73-84 | the substitutions keep the content non-empty and its lines free of line feeds |
| Markdown.NormalizeAsLines | backend/src/tutor/utils/markdown_normalizer.py:17-65 | a normaliser on content is its substitutions on the lines followed by the blank-line pass, both for the pass as written and for the corrected pass |
| Markdown.NormalizeIntendedIdempotent | backend/src/tutor/utils/markdown_normalizer.py:17-65 | with the corrected blank-line pass, a normaliser whose replacements none of its patterns matches is idempotent |
| Markdown.NormalizeOfInert | backend/src/tutor/utils/markdown_normalizer.py:17-65 | on lines no pattern matches, the normaliser as written is the blank-line pass as written and nothing else |
| Markdown.HeadingShapedIsHeading | backend/src/tutor/utils/markdown_normalizer.py:202 | a heading that a substitution writes, with one to six `#`, is a heading for the blank-line pass |
| Markdown.AsWrittenOnTwoHeadings | backend/src/tutor/utils/markdown_normalizer.py:196-202 | as written, two headings followed by a non-empty line get a blank line after the first only; run again, the pass adds one after the second |
| Markdown.AsWrittenNotIdempotent | backend/src/tutor/utils/markdown_normalizer.py:17-65 | on two headings followed by a non-empty line that no pattern matches, a normaliser as written spaces the first heading only and changes its own output on a second run |
| Markdown.SubheadingTablesOk | backend/src/tutor/utils/markdown_normalizer.py:104-120 | each reading and grammar subheading name is a plain name whose target is its level-4 heading |
| Markdown.ReadingPatterns | backend/src/tutor/utils/markdown_normalizer.py:26-27 | the reading normaliser's two substitution helpers, in turn, are one chain of substitutions |
| Markdown.GrammarPatterns | backend/src/tutor/utils/markdown_normalizer.py:43-44 | the grammar normaliser's two substitution helpers, in turn, are one chain of substitutions |
| Markdown.VocabularyPatterns | backend/src/tutor/utils/markdown_normalizer.py:60-61 | the vocabulary normaliser's two substitution helpers, in turn, are one chain of substitutions |
| Markdown.SentencePatternsWellFormed | backend/src/tutor/utils/markdown_normalizer.py:76-83 | the five sentence patterns are well formed |
| Markdown.SentencePatternsRefuse | backend/src/tutor/utils/markdown_normalizer.py:76-83 | no sentence pattern matches a `###`/`####` heading line |
| Markdown.SubheadingPatternsRefuse | backend/src/tutor/utils/markdown_normalizer.py:91-98 | no subheading pattern matches a `###`/`####` heading line |
| Markdown.SentenceProduced | backend/src/tutor/utils/markdown_normalizer.py:76-83 | every sentence replacement is a level-3 heading |
| Markdown.SubheadingProduced | backend/src/tutor/utils/markdown_normalizer.py:91-98 | every subheading replacement is a level-4 heading |
| Markdown.SectionPatternsInert | backend/src/tutor/utils/markdown_normalizer.py:73-122 | no replacement of the reading or grammar normaliser matches any of its patterns again |
| Markdown.NumberedTargetShaped | backend/src/tutor/utils/markdown_normalizer.py:151-156 | a numbered target is a `### ` heading starting with a digit |
| Markdown.VocabSubheadingsOk | backend/src/tutor/utils/markdown_normalizer.py:150-157 | the six numbered entries are well formed |
| Markdown.WordPatternsRefuse | backend/src/tutor/utils/markdown_normalizer.py:132-144 | no word-heading pattern matches a `##` or numbered `###` line |
| Markdown.NumberedPatternsRefuse | backend/src/tutor/utils/markdown_normalizer.py:160-192 | no numbered pattern matches a `##` or numbered `###` line |
| Markdown.WordProduced | backend/src/tutor/utils/markdown_normalizer.py:132-144 | every word-heading replacement is a `##` line |
| Markdown.NumberedProduced | backend/src/tutor/utils/markdown_normalizer.py:151-192 | every numbered replacement is a numbered `###` line |
| Markdown.EntryPatternsInert | backend/src/tutor/utils/markdown_normalizer.py:125-193 | no replacement of the vocabulary normaliser matches any of its patterns again |
| Markdown.FixSubheadings | backend/src/tutor/utils/markdown_normalizer.py:102-122 | the subheading loop is the chain of all its names' five substitutions |
| Markdown.FixNumberedSubheadings | backend/src/tutor/utils/markdown_normalizer.py:148-193 | the numbered loop is the chain of all six entries' five substitutions |
| Markdown.FixKoreanSubheading | backend/src/tutor/utils/markdown_normalizer.py:87-99 | on one line, with a target free of line breaks, the five substitutions act line by line |
| Markdown.InsertBlankLinesAsWritten | backend/src/tutor/utils/markdown_normalizer.py:196-202 | the pass as written never removes a line and adds no more blank lines than the corrected pass |
| Markdown.RaisingKeepsContentSoFar | backend/src/tutor/utils/markdown_normalizer.py:25-65 | when a helper raises, the normaliser returns the content as the helpers before it left it, not the original |
| Markdown.RunThree | backend/src/tutor/utils/markdown_normalizer.py:25-29 | with no exception the three helpers run in order |
| Markdown.NormalizeReadingOutput | backend/src/tutor/utils/markdown_normalizer.py:17-31 | the reading normaliser is the sentence and reading-subheading substitutions followed by the blank-line pass as written |
| Markdown.NormalizeGrammarOutput | backend/src/tutor/utils/markdown_normalizer.py:34-48 | the grammar normaliser is the sentence and grammar-subheading substitutions followed by the blank-line pass as written |
| Markdown.NormalizeVocabularyOutput | backend/src/tutor/utils/markdown_normalizer.py:51-65 | the vocabulary normaliser is the word and numbered substitutions followed by the blank-line pass as written |
| Markdown.NormalizeReadingOutputNotIdempotent | backend/src/tutor/utils/markdown_normalizer.py:17-31 | a sentence heading directly followed by any two reading subheadings: normalising puts a blank line after the sentence heading only, and normalising again changes the output |
| Markdown.NormalizeGrammarOutputNotIdempotent | backend/src/tutor/utils/markdown_normalizer.py:34-48 | the same for a sentence heading directly followed by any two grammar subheadings |
| Markdown.NormalizeVocabularyOutputNotIdempotent | backend/src/tutor/utils/markdown_normalizer.py:51-65 | a word heading directly followed by any two numbered subheadings: normalising spaces the word heading only, and normalising again changes the output |
| Markdown.NormalizeReadingOutputIntendedIdempotent | backend/src/tutor/utils/markdown_normalizer.py:17-31 | with the corrected blank-line pass, normalising reading output twice is normalising it once |
| Markdown.NormalizeGrammarOutputIntendedIdempotent | backend/src/tutor/utils/markdown_normalizer.py:34-48 | with the corrected blank-line pass, normalising grammar output twice is normalising it once |
| Markdown.NormalizeVocabularyOutputIntendedIdempotent | backend/src/tutor/utils/markdown_normalizer.py:51-65 | with the corrected blank-line pass, normalising vocabulary output twice is normalising it once |
| Markdown.SubAllLinesHeadLine | backend/src/tutor/utils/markdown_normalizer.py:76-83 | a line followed by lines no pattern matches ends as the fold of the patterns over it alone |
| Markdown.FoldUnmatched | backend/src/tutor/utils/markdown_normalizer.py:76-83 | a line no pattern matches is kept |
| Markdown.FoldFirstMatch | backend/src/tutor/utils/markdown_normalizer.py:76-83 | the first pattern that matches rewrites the line and the later ones see the replacement |
| Markdown.FoldFirstMatchFinal | backend/src/tutor/utils/markdown_normalizer.py:76-83 | a replacement no pattern matches is the line's final value |
| Markdown.SentenceBody | backend/src/tutor/utils/markdown_normalizer.py:76-83 | `문장`, white space and digits are captured with the digits as the group exactly when the tail matches |
| Markdown.SentenceTargetInert | backend/src/tutor/utils/markdown_normalizer.py:76-83 | `### 문장 N` matches no sentence pattern |
| Markdown.HeadingShapedOf | backend/src/tutor/utils/markdown_normalizer.py:82-83 | a run of `#`, a space and a text is a heading line of that level |
| Markdown.PatternOnHashes | backend/src/tutor/utils/markdown_normalizer.py:82-188 | on such a line a pattern matches exactly when its `#` range holds the level and its body matches the text |
| Markdown.FormsBold | backend/src/tutor/utils/markdown_normalizer.py:76-161 | a bold line is taken by the first form |
| Markdown.FormsColon | backend/src/tutor/utils/markdown_normalizer.py:78-168 | a plain line with a colon is taken by the second form and not the first |
| Markdown.FormsPlain | backend/src/tutor/utils/markdown_normalizer.py:80-175 | a plain line without a colon is taken by the third form and by neither before it |
| Markdown.FormsRefuseHeading | backend/src/tutor/utils/markdown_normalizer.py:76-175 | the three forms without `#` refuse every heading line |
| Markdown.FormsShallow | backend/src/tutor/utils/markdown_normalizer.py:82-182 | a heading in the too-shallow range is taken by the fourth form |
| Markdown.FormsDeep | backend/src/tutor/utils/markdown_normalizer.py:83-188 | a heading in the too-deep range is taken by the fifth form |
| Markdown.SentenceTargetRest | backend/src/tutor/utils/markdown_normalizer.py:76-83 | the sentence patterns from any position on keep `### 문장 N` |
| Markdown.SentenceLine | backend/src/tutor/utils/markdown_normalizer.py:76-83 | a line the k-th sentence pattern is the first to take becomes `### 문장 N` |
| Markdown.BoldSentenceHeading | backend/src/tutor/utils/markdown_normalizer.py:76 | `**문장 N**` and `**문장 N**:` become `### 문장 N` |
| Markdown.PlainSentenceHeadingColon | backend/src/tutor/utils/markdown_normalizer.py:78 | `문장 N:` becomes `### 문장 N` |
| Markdown.PlainSentenceHeading | backend/src/tutor/utils/markdown_normalizer.py:80 | `문장 N` alone on its line becomes `### 문장 N` |
| Markdown.SentenceHeadingLevel | backend/src/tutor/utils/markdown_normalizer.py:82-83 | `문장 N` as a heading of level 1, 2, 4, 5 or 6 becomes `### 문장 N` |
| Markdown.SentenceHeadingKept | backend/src/tutor/utils/markdown_normalizer.py:73-84 | `### 문장 N` is kept |
| Markdown.SubheadingTargetInert | backend/src/tutor/utils/markdown_normalizer.py:91-98 | `#### name` matches none of that name's patterns |
| Markdown.SubheadingLine | backend/src/tutor/utils/markdown_normalizer.py:87-99 | a line the k-th pattern of a name is the first to take becomes `#### name` |
| Markdown.NameCapture | backend/src/tutor/utils/markdown_normalizer.py:89-98 | the escaped name followed by a tail matches exactly when the tail does |
| Markdown.BoldSubheading | backend/src/tutor/utils/markdown_normalizer.py:91 | `**name**` and `**name**:` become `#### name` |
| Markdown.ColonSubheading | backend/src/tutor/utils/markdown_normalizer.py:93 | `name:` becomes `#### name` |
| Markdown.PlainSubheading | backend/src/tutor/utils/markdown_normalizer.py:95 | the name alone on its line becomes `#### name` |
| Markdown.SubheadingLevel | backend/src/tutor/utils/markdown_normalizer.py:97-98 | the name as a heading of level 1, 2, 3, 5 or 6 becomes `#### name` |
| Markdown.SubheadingKept | backend/src/tutor/utils/markdown_normalizer.py:87-99 | `#### name` is kept |
| Markdown.WordCapture | backend/src/tutor/utils/markdown_normalizer.py:133-140 | an English word followed by a non-word tail is captured exactly when the tail matches |
| Markdown.WordTargetInert | backend/src/tutor/utils/markdown_normalizer.py:132-144 | `## w` matches neither word pattern |
| Markdown.WordHeadingLevel | backend/src/tutor/utils/markdown_normalizer.py:132-137 | `### w` to `###### w`, for an English word w, become `## w` |
| Markdown.BoldWordHeading | backend/src/tutor/utils/markdown_normalizer.py:139-144 | `**w**` and `**w**:` become `## w` |
| Markdown.WordPatternsKeepHeading | backend/src/tutor/utils/markdown_normalizer.py:125-145 | a level-1 or level-2 heading, or one whose text does not start with an ASCII letter, is kept |
| Markdown.SingleHashWordKept | backend/src/tutor/utils/markdown_normalizer.py:133 | `# w` is kept, not raised to `## w` |
| Markdown.NumberedHeadingNotWord | backend/src/tutor/utils/markdown_normalizer.py:128-133 | a numbered subheading such as `### 1. 기본 뜻` is never turned into a word heading |
| Markdown.NumberedTargetInert | backend/src/tutor/utils/markdown_normalizer.py:151-192 | an entry's target matches none of its patterns |
| Markdown.NumberedLine | backend/src/tutor/utils/markdown_normalizer.py:158-192 | a line the k-th pattern of an entry is the first to take becomes the entry's target |
| Markdown.NumberedCapture | backend/src/tutor/utils/markdown_normalizer.py:161-188 | `N. ` and a text is captured exactly when the entry's name pattern and the tail match the text |
| Markdown.BoldNumberedHeading | backend/src/tutor/utils/markdown_normalizer.py:160-165 | `**N. name**` and `**N. name**:` become the target |
| Markdown.ColonNumberedHeading | backend/src/tutor/utils/markdown_normalizer.py:167-172 | `N. name:` becomes the target |
| Markdown.PlainNumberedHeading | backend/src/tutor/utils/markdown_normalizer.py:174-179 | `N. name` alone on its line becomes the target |
| Markdown.NumberedHeadingLevel | backend/src/tutor/utils/markdown_normalizer.py:181-192 | `N. name` as a heading of level 1, 2, 4, 5 or 6 becomes the target |
| Markdown.NumberedKept | backend/src/tutor/utils/markdown_normalizer.py:158-192 | an entry's target is kept |
| Markdown.VariantCollapses | backend/src/tutor/utils/markdown_normalizer.py:154-188 | a name followed by `[^\n*]*` takes any rest without `*`, so every such line collapses to the one target |
| Markdown.VocabEntryOk | backend/src/tutor/utils/markdown_normalizer.py:150-157 | each of the six entries is well formed |
| Markdown.VocabVariantEntries | backend/src/tutor/utils/markdown_normalizer.py:154-155 | exactly entries 4 and 5 accept any rest after their name |
| Markdown.VocabVariantsCollapse | backend/src/tutor/utils/markdown_normalizer.py:154-155 | `4. 어원` and `5. 같은 어원 파생 단어` with any rest become their fixed targets, such as "### 4. 어원 (PIE 어근까지)" |
| Vocabulary.FilterMap | backend/src/tutor/agents/vocabulary.py:48-78 | the loop keeps at most one entry per section |
| Vocabulary.Sections | backend/src/tutor/agents/vocabulary.py:24-34 | a reply in the documented layout has one rendered section per word, in order |
| Vocabulary.RenderedParts | backend/src/tutor/agents/vocabulary.py:46 | splitting such a reply on `\n## ` gives back one piece per word, the first still under its `## ` |
| Vocabulary.HeaderRecovered | backend/src/tutor/agents/vocabulary.py:54-59 | the first line of a stripped section is its header line |
| Vocabulary.WordRecovered | backend/src/tutor/agents/vocabulary.py:66 | stripping the leading `#` marks and white space from `## w` or `w` gives the word w back |
| Vocabulary.ContentRecovered | backend/src/tutor/agents/vocabulary.py:69-75 | removing the header line and the trailing `---` gives back the content between them |
| Vocabulary.LeadNotInstruction | backend/src/tutor/agents/vocabulary.py:62-63 | a leading `## ` cannot make a word's header look like an instruction section |
| Vocabulary.SectionOfParts | backend/src/tutor/agents/vocabulary.py:48-78 | a section with a non-instruction header, a non-empty word and non-empty content yields exactly that entry |
| Supervisor.WithPeriods | backend/src/tutor/agents/supervisor.py:28 | each kept piece gets its period back, and nothing else changes |
| Supervisor.SplitTwoSentences | backend/src/tutor/agents/supervisor.py:28 | `"a.b."` splits into both sentences and a final empty piece |
| Supervisor.StringItems | backend/src/tutor/agents/supervisor.py:105-114 | a JSON list is accepted as `list[str]` exactly when every item is a string, and then gives those strings |
| Router.TokenOrdinary | backend/src/tutor/routers/tutor.py:74-77 | token events are neither `done` nor `error` events |
| Router.VocabularyEndOrdinary | backend/src/tutor/routers/tutor.py:86-94 | the events the vocabulary node's end produces are neither `done` nor `error` events |
| Router.AggregatorEndOrdinary | backend/src/tutor/routers/tutor.py:95-104 | the events the aggregator's end produces are neither `done` nor `error` events |
| Channel.Pushes | backend/src/tutor/agents/grammar.py:74 | the items pushed for a token list are those tokens, in order |
| Channel.Sentinels | backend/src/tutor/agents/grammar.py:76-77 | the sentinel count is zero exactly when no sentinel was pushed |
| Channel.SentinelsAppend | backend/src/tutor/agents/grammar.py:74-77 | the sentinels of two runs of pushes add up |
| Channel.TokenQueue.constructor | backend/src/tutor/agents/grammar.py:65 | a new queue is empty |
| TutorStream.HandleLinesAppend | src/hooks/use-tutor-stream.ts:67-116 | handling two runs of lines in turn is handling their concatenation |
| TutorStream.EntryNumbered | src/hooks/use-tutor-stream.ts:177 | an entry's text starts with its number |
| Streaming.FeedHeartbeat | backend/src/tutor/routers/tutor.py:37 | a client reading the heartbeat comment stays in its initial state |
| Streaming.FeedBlank | backend/src/tutor/services/streaming.py:24 | the blank line that closes a frame dispatches the pending event and resets the client's state |
| Streaming.FeedField | backend/src/tutor/services/streaming.py:24 | a `name: value` line only records that field in the client's state |
| Constants.DefaultSettingsValues | src/lib/constants.ts:44-47 | the default level 3 is a defined level, labelled "중급", and the upload limit is 10 × 1024 × 1024 bytes |

## Left out

- Model calls (`astream`, `ainvoke`, the `ChatOpenAI` client) are foreign libraries. A model's reply is a given sequence of chunks, or a given success or failure.
- The reading, grammar and vocabulary agents skip a chunk whose `content` is not a string; a chunk without `content` gives `""`, which adds nothing. The router prints a chunk without `content` with `str(chunk)`; that printed text is the given `printed` field of `Router.PlainChunk`, since `str` of a foreign object is not modelled.
- `Router.StreamChunk.ContentChunk` carries string content only. In the router a truthy non-string `content` (a list of content blocks, say) is sent on as the token, and that case is not modelled.
- `reading.py` and `image_processor.py` are thin LLM wrappers and are not modelled. `Llm.ReadingModelRefused` records that the reading agent's hard-coded model is always refused.
- LangGraph itself is not modelled: `StateGraph`, `compile` and `astream_events`. The graph is its edge set as data, and the events it streams are a given trace.
- The asyncio machinery of `_stream_with_heartbeat` is not modelled: `wait_for`, `create_task` and the five-second timeout. Each poll is one abstract outcome: an item, the sentinel, or a timeout together with the producer's status. The `finally` cancellation is the `cancelProducer` out-parameter.
- The FastAPI endpoints are I/O plumbing and are not modelled: `analyze`, `analyze_image`, `chat` and `health`, their `HTTPException`s, session creation inside them, and `StreamingResponse`. The Next.js route proxies are left out for the same reason.
- The React components and pages are UI and are not modelled. Neither are `use-session.ts`, `use-media-query.ts` and `utils.ts`.
- File and environment I/O are not modelled: prompt loading, YAML parsing, pydantic-settings reading the environment, and `render_prompt`'s `str.format`. Their results are parameters of `Prompts.LevelInstructionCache.GetLevelInstructions` and `Config.SettingsHolder.GetSettings`.
- Prompts.Lookup: a level entry's `instructions` is a string or absent. A YAML `instructions: null` loads as `None`, which `level_data.get("instructions", "")` returns as it is, so the source hands `None` on to the prompt; the model has no null instructions and gives "" for them, as for an absent key.
- `json.loads` and `JSON.parse` are parameters or given outcomes. `json.dumps` is modelled for the values the code sends, with ASCII escaping and default separators. Floating-point JSON numbers are not modelled.
- `uuid4()` and `datetime.now()` are parameters. `Session.SessionManager.Create` reads the clock twice, as the code does. It overwrites a session that already has the drawn id, which `uuid4` makes improbable but the code does not rule out.
- `Image.ValidateImage` uses the `str(set)` rendering of the allowed types in its message. That rendering is the `allowedText` parameter, because Python's set order is not modelled.
- Strict base64 follows the character loop of `binascii.a2b_base64(s, strict_mode=True)` as released in CPython 3.11 to 3.13, which `base64.b64decode(s, validate=True)` calls. It refuses a leading `=`, anything after the `=` that completes a group, characters outside the alphabet, and data after a `=`. It still accepts some padded forms that section 4 of RFC 4648 refuses.
- Image.ExcessPaddingAccepted: states the behaviour of that loop, which counts `=` only in a group of two or three data characters and so passes over `=` after complete groups. Later CPython releases may refuse such padding with "Excess padding not allowed"; a 3.13 patch release that does so is not modelled.
- The floating-point `size_mb` is compared as the equivalent integer byte count (`Image.SizeLimitInBytes`). The size in the message is rounded half to even at two places, as `:.2f` does, by `Image.Mebibytes` from the exact byte count; the binary rounding of the float itself is not modelled.
- `Markdown`: each substitution is modelled line by line. Python's `\s` also matches a line feed. The model keeps one consequence of it: a trailing `\s*$` also swallows the blank lines after a matched heading (`Markdown.DropBlankLines`). It does not model a match that crosses a line feed in any other way. The cases it misses include:
  - `^문장\s+(\d+)\s*$` turns "문장\n3" into "### 문장 3";
  - `^\*\*([A-Za-z][A-Za-z0-9\s\-]*)\*\*:?\s*$` turns "\*\*apple\nbanana\*\*" into "## apple\nbanana";
  - the blank-line pattern `(^#{1,6}\s+[^\n]+)\n([^\n])` on "#\nfoo\nbar" takes "foo" as the heading text and inserts a blank line after "foo".

  `\d` is modelled as ASCII digits, although Python matches every Unicode decimal digit. `\s` within a line is Python's `str.isspace` set without the line feed.
- Markdown.CaptureHasNoLineBreak: states a property of the line-wise model only. In Python a `\s` inside a captured group can take a line feed, as in the examples above.
- Markdown.SubAllAsLines: states that the line-wise model of the substitution chain is the chain applied line by line. It does not claim that Python's `re.sub` on the whole content agrees with it on content where a match would cross a line feed.
- The three normalisers (`Markdown.NormalizeReadingOutput`, `Markdown.NormalizeGrammarOutput` and `Markdown.NormalizeVocabularyOutput`) run the blank-line pass as written (`Markdown.InsertBlankLinesAsWritten`), so they are not idempotent (`Markdown.NormalizeReadingOutputNotIdempotent` and its grammar and vocabulary partners). Idempotence is proved for the `…Intended` normalisers, which run the corrected pass `Markdown.InsertBlankLines` instead (see Findings).
- `Aggregator.AggregatorNode` follows the code on a missing `session_id`: the `KeyError` is caught and the empty-id response is returned.
- `Supervisor.Fallback` raises for a level outside 1..5, because `SentenceEntry` validation refuses such a difficulty. A boolean difficulty clamps to 1, as Python compares `True` as 1.
- The graph never supplies `token_queue`, so the agents run with no queue. With a queue, the loops behave as `Channel.Consume` states.
- `Vocabulary.VocabularySetup`: a failure in the setup (settings, `get_llm`, the level instructions, prompt rendering) lies outside the `try`. It escapes with no sentinel, as in the code.
- The `if not lines: continue` branch of the vocabulary parser is dead code, because `str.split` never returns an empty list. The model has no such branch.
- `Router.StreamWithHeartbeat`: a failed producer ends the wrapper silently, so the translation loop still ends with `done` (`Router.ProducerFailureEndsWithDone`).
- The aggregator branch of the router sends a `vocabulary_chunk` even when the word list is empty (`Router.AggregatorVocabulary`).
- The `KeyError` texts for events without `event` or `data` (`'event'`, `'data'`) are the error messages in the model.
- The client does not match the server:
  - `TutorStream` ignores `reading_token`, `grammar_token` and the `*_done` events;
  - it shows every server vocabulary entry as "Unknown" (`TutorStream.ServerVocabularyShownUnknown`).
- `TutorStream.TutorStreamHook.StartStream` leaves out the following, each stated here so that nothing is implied:
  - the `AbortController` it creates is never passed to the fetch function, so the model has no abort signal;
  - `response.ok` is never checked;
  - an `AbortError` leaves `isStreaming` true;
  - `TextDecoder` is not modelled: chunks are already-decoded strings;
  - `JSON.parse` and `JSON.stringify(…, null, 2)` are parameters;
  - React's state batching and re-rendering are not modelled. Updates apply in order.
- A `null` data payload makes `formatVocabularyData` and the field reads throw a `TypeError`. The handler's `catch` then leaves the state unchanged.
- `Api`: each chunk is split on its own, so a line broken across chunks is lost (`Api.BrokenLineLost`). `TextDecoder` is not modelled, and the reader-lock release is the `released` out-parameter.
- `Api.RequestResult`: the request itself is not modelled. That covers URLs, `JSON.stringify`, `FormData` and the rejection of `fetch`, which simply propagates. The model begins once the reply is in.
- `Api.RequestResult`, error messages:
  - an error body that is not JSON gives "Unknown error", not the fallback message;
  - a `null` error body throws a `TypeError`;
  - the message is kept as the JSON value it was, because `ApiError` does not convert it.
- `LevelConfig.LevelConfig`: React's effect scheduling is reduced to the order the effects run on mount, with one storage write per committed change.

## Findings

| source | as written | input that shows it | evidently intended | confidence | as-written member | corrected member |
|---|---|---|---|---|---|---|
| backend/src/tutor/utils/markdown_normalizer.py:196-202 | the pattern consumes the first character of the line after a heading, so a heading directly after another heading is not seen and gets no blank line | "## a\n## b\nc" becomes "## a\n\n## b\nc", and a second pass changes it again; through `normalize_reading_output`, "### 문장 1\n#### 단위별 해석\n#### 자연스러운 해석" becomes "### 문장 1\n\n#### 단위별 해석\n#### 자연스러운 해석" and a second run changes it again (`Markdown.NormalizeReadingOutputNotIdempotent`) | a blank line after every heading followed by a non-blank line, as the docstring says; the pass is then idempotent, and so are the normalisers that use it (`Markdown.NormalizeReadingOutputIntendedIdempotent`) | not executed | Markdown.AsWrittenSkipsSecondHeading | Markdown.CorrectedSpacesBothHeadings |
| backend/src/tutor/routers/tutor.py:21-29 | the router imports `format_vocabulary_error` from the streaming service, which defines no such function, so importing the router fails | importing the router module | a formatter that sends an `error`-style `vocabulary_error` event with the message | not executed | Router.RouterImportFails | Streaming.FormatVocabularyError |
