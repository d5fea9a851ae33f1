# StreamShape streaming structured-output parser, in Dafny

StreamShape reads an LLM provider's streaming response and yields typed
objects as soon as each element of the JSON array the model is writing has
arrived whole. This project models the core of
`src/streamshape/streaming_structured_output_parser/parse_llm_output.py`
and proves properties of that model. The core has five parts:

- **`_StreamClient`** (`linesource.dfy`, module `LineSource`) is the line
  source. It turns either the raw lines of an HTTP response or the chunk
  objects of an OpenAI stream into SSE `data:` lines. It checks a
  cancellation event before each item and closes the response on every way
  out, including when fetching from the transport raises. The generator is the class `StreamClient`. The lines it yields over its
  whole life, and how it ends, are the function `Emit`.
- **`_TokenBuffer`** (`buffer.dfy`, module `Buffer`) collects content
  deltas and returns every array element that becomes decodable.
  - `FeedSpec` and the class `TokenBuffer` model the buffer exactly as
    written.
  - `SafeFeed` and `SafeTokenBuffer` model the corrected buffer (see
    "## Findings").
  - `split.dfy` (module `Split`) proves that the corrected buffer does not
    care where the text is cut into deltas.
  - `commasplit.dfy` (module `CommaSplit`) shows where the buffer as written
    does care.
- **`_SSEEventParser`** (`sse.dfy`, module `Sse`) has two functions.
  - `ParseLine` decodes one line.
  - `ContentFromEvent` digs out `choices[0].delta.content`.
- **`_SchemaValidator`** and **`_PipelineController`** (`pipeline.dfy`,
  module `Pipeline`) drive the stream. `Run` states the records of a whole
  stream, one loop pass (`StepLine`) at a time. The class `Controller` and
  the method `ReadTokens` produce those records, and the lemmas state what
  every run looks like. `delivery.dfy` (module `Delivery`) states which data
  records a stream yields.

The JSON library is a set of parameters, declared in `json.dfy` (module
`Json`) and `sse.dfy`:

- `raw_decode` is a `Decoder`. This is a function that returns a value and
  the offset just past it. The split theorem assumes two properties of it.
  A self-delimiting value is a string, array, object, `true`, `false` or
  `null`, anything but a bare number. Python's `raw_decode` has both
  properties.
  - `Monotone`: more text never undoes a decode, and never changes the
    decode of a self-delimiting value. The decode of a bare number may
    change (`1` and then `12`).
  - `Consistent`: when a text decodes to a self-delimiting value, a prefix
    of it that decodes does not decode to a bare number.
- `json.loads` is a `Loads`.
- `json.dumps` is a `Dumps`.
- `model_validate` is a `Schema`, which returns `Accepted`, `Rejected` (a
  `ValidationError`) or `Broken` (any other exception).

Python's `None` and JSON `null` are both `Null`. An exception that Python
raises is `Raises` in an `Outcome`, or `Fail`/`Raised` in the pipeline.
`Truthy` is Python's truth test on a decoded value.

The model follows the code, including where it behaves in ways a reader of
the package might not expect:

- **Cancellation is not a hard stop.** When the cancellation event is seen,
  `_iter_http_stream` / `_iter_openai_stream` return normally. `stream()`
  then still yields its terminal `finished` record (`CancelledBeforeFirstLine`,
  `RunShape`).
- **The response is closed twice on cancellation.** It is closed once in
  `_iteration_cancelled` and once in the `finally` of `iter_lines`
  (`StreamClient.NextLine`, `Controller.Stream`).
- **Only empty raw lines are skipped.** A line made only of whitespace is
  passed on, and the SSE parser then ignores it because it lacks the
  `data: ` prefix.
- **A `null` payload is skipped.** A `data: null` line decodes to a falsy
  event, so it is skipped like an undecodable one.
- **A truthy event that is not a dict ends the stream with the error
  record.** It is first appended to the raw chunks, then the `usage` test or
  `content_from_event` raises. Content that is not a string raises in the
  buffer in the same way.

## Model

All source paths are in `src/streamshape/streaming_structured_output_parser/parse_llm_output.py`.

| member | source | states |
|---|---|---|
| `Sse.ParseLine` | src/streamshape/streaming_structured_output_parser/parse_llm_output.py:145-156 | A line without the `data: ` prefix is no event. The line is the terminator exactly when it is `data: [DONE]`, and the terminator carries no event. Any event returned is what `loads` gives for the payload after the prefix. |
| `Sse.ParsesPayload` | src/streamshape/streaming_structured_output_parser/parse_llm_output.py:149-156 | `data: <payload>`, for any payload except `[DONE]`, decodes the payload. A payload that `loads` rejects gives no event rather than an error. |
| `Sse.ContentFromEvent` | src/streamshape/streaming_structured_output_parser/parse_llm_output.py:158-172 | Raises exactly when `choices` or an entry on the path has the wrong kind for the lookup. Returns the content whenever `choices[0].delta.content` is present and non-empty. Returns nothing otherwise. |
| `LineSource.FinishReason` | src/streamshape/streaming_structured_output_parser/parse_llm_output.py:79-86 | A missing or empty `choices` gives `None`. It raises exactly when `choices` is truthy and is not a list whose first entry is a dict. Otherwise it returns `choices[0].get("finish_reason")`: the entry's value, or `None` when the entry is absent or null. A non-`None` result is always that entry. |
| `LineSource.HttpLines` | src/streamshape/streaming_structured_output_parser/parse_llm_output.py:44-53 | An empty raw line yields nothing. Any other line is yielded unchanged. Neither raises. |
| `LineSource.ChunkLines` | src/streamshape/streaming_structured_output_parser/parse_llm_output.py:61-77 | An empty chunk yields nothing. Any other chunk yields `data: <dumps(chunk)>`, followed by `data: [DONE]` exactly when it names a finish reason. It raises after the data line exactly when extracting the finish reason raises. |
| `LineSource.ChunkRoundTrip` | src/streamshape/streaming_structured_output_parser/parse_llm_output.py:72-77 | For a chunk that `loads` reads back from `dumps`, the synthesised data line parses back to the chunk itself. The extra line parses as the terminator and is present exactly when the chunk names a finish reason. |
| `LineSource.CancelCutsOff` | src/streamshape/streaming_structured_output_parser/parse_llm_output.py:29-42 | Once the cancellation event is seen, nothing more is yielded. Two transports that agree up to the cancelled item emit the same lines and end the same way. |
| `LineSource.CancelEnds` | src/streamshape/streaming_structured_output_parser/parse_llm_output.py:58-59 | A transport cancelled at some item never ends by running out. |
| `LineSource.FailureRaises` | src/streamshape/streaming_structured_output_parser/parse_llm_output.py:39-42 | A transport whose fetch of an item fails ends the iteration raising, unless the cancellation event was seen first. |
| `LineSource.StreamClient.constructor` | src/streamshape/streaming_structured_output_parser/parse_llm_output.py:11-15 | A fresh generator has yielded nothing, has closed nothing, and has the whole emission still to come. |
| `LineSource.StreamClient.NextLine` | src/streamshape/streaming_structured_output_parser/parse_llm_output.py:17-27 | Returns the emission's lines one by one, in order. Once they run out, the generator stops, or raises if the transport or a finish reason raised. The response is then closed twice after a cancellation and once otherwise. A finished generator stays finished. |
| `LineSource.StreamClient.Refill` | src/streamshape/streaming_structured_output_parser/parse_llm_output.py:39-77 | Resumes the transport loop. It skips items that yield nothing and stops at one of four points: the first item with lines, the cancellation, a failed fetch (left pending, to be raised), or the end. The lines still to come are unchanged. |
| `LineSource.StreamClient.SkipSilent` | src/streamshape/streaming_structured_output_parser/parse_llm_output.py:40-45 | The transport loop passes over items that yield no line. It stops at the first item that fails, is cancelled or yields lines, or at the end, and the emission from there is the emission from where it started. |
| `LineSource.StreamClient.TakeQueued` | src/streamshape/streaming_structured_output_parser/parse_llm_output.py:49-53 | Hands out the first pending line and keeps the invariant that yielded lines plus pending lines make the whole emission. |
| `LineSource.StreamClient.Dispose` | src/streamshape/streaming_structured_output_parser/parse_llm_output.py:17-27 | Closing a generator suspended at a `yield` closes the response once, from its `finally`. Closing one whose body never ran closes nothing, since it never entered its `try`. Closing one that has finished closes nothing more. The generator is finished afterwards. |
| `Buffer.TokenBuffer.constructor` | src/streamshape/streaming_structured_output_parser/parse_llm_output.py:92-96 | Empty buffer, array not started, no delta seen. |
| `Buffer.TokenBuffer.Feed` | src/streamshape/streaming_structured_output_parser/parse_llm_output.py:98-134 | The returned elements and the new `_buffer` / `_array_started` / `_saw_chunk` are exactly `FeedSpec` of the old state and the delta. `_saw_chunk` holds exactly when some non-empty delta has been fed. |
| `Buffer.TokenBuffer.DrainBuffer` | src/streamshape/streaming_structured_output_parser/parse_llm_output.py:113-134 | The `while True` loop ends where `Drain` ends and collects what `Drain` collects. |
| `Buffer.TokenBuffer.SawContent` | src/streamshape/streaming_structured_output_parser/parse_llm_output.py:136-137 | True exactly when a non-empty delta has been fed. |
| `Buffer.FeedBeforeArray` | src/streamshape/streaming_structured_output_parser/parse_llm_output.py:99-111 | An empty delta changes nothing. Before any `[` has arrived, every delta is buffered and returns nothing. For the delta that brings the first `[`, everything up to and including that `[` is dropped, and what stays buffered comes from the text after it. |
| `Buffer.DrainStops` | src/streamshape/streaming_structured_output_parser/parse_llm_output.py:114-126 | The loop stops on an empty buffer. It stops on `]`, consuming it and closing the array. It stops where the decoder fails, keeping the text verbatim. |
| `Buffer.DrainOnValue` | src/streamshape/streaming_structured_output_parser/parse_llm_output.py:123-132 | A decodable value at the front is returned first. The loop then goes on after it, past the whitespace and at most one comma. |
| `Buffer.DrainStuck` | src/streamshape/streaming_structured_output_parser/parse_llm_output.py:113-126 | Unless it met the closing `]`, the loop ends only where it is stuck: what is left is stripped of leading whitespace, and it is empty or starts with text that is not `]` and that the decoder rejects. |
| `Buffer.FeedSuffix` | src/streamshape/streaming_structured_output_parser/parse_llm_output.py:103-132 | `feed` only removes text from the front. What stays buffered is a suffix of the old buffer followed by the delta. |
| `Buffer.FeedKeepsSuffix` | src/streamshape/streaming_structured_output_parser/parse_llm_output.py:103-132 | The buffer is always a suffix of everything fed so far: it holds only unconsumed characters. |
| `Buffer.SafeTokenBuffer.constructor` | src/streamshape/streaming_structured_output_parser/parse_llm_output.py:92-96 | The corrected buffer starts empty, array not started, no delta seen, no comma owed. |
| `Buffer.SafeTokenBuffer.Feed` | src/streamshape/streaming_structured_output_parser/parse_llm_output.py:98-134 | The corrected `feed`. Its results and new state are exactly `SafeFeed` of the old state and the delta. |
| `Buffer.SafeTokenBuffer.DrainBuffer` | src/streamshape/streaming_structured_output_parser/parse_llm_output.py:113-134 | The corrected loop ends where `SafeDrain` ends. A comma after an element may be consumed in a later delta. |
| `Buffer.SafeTokenBuffer.SawContent` | src/streamshape/streaming_structured_output_parser/parse_llm_output.py:136-137 | True exactly when a non-empty delta has been fed to the corrected buffer. |
| `Buffer.SafeDrainAgrees` | src/streamshape/streaming_structured_output_parser/parse_llm_output.py:113-134 | With no comma owed, the corrected loop leaves the same text, closes the same way and returns the same values as the loop as written. |
| `Buffer.SafeDrainAgreesOwed` | src/streamshape/streaming_structured_output_parser/parse_llm_output.py:129-132 | With a comma owed, the corrected loop does what the loop as written does after that comma is dropped. |
| `Buffer.SafeFeedAgrees` | src/streamshape/streaming_structured_output_parser/parse_llm_output.py:98-134 | From a state that owes no comma, the corrected `feed` returns the same elements and buffer as the `feed` as written. |
| `Buffer.SafeDrainStuck` | src/streamshape/streaming_structured_output_parser/parse_llm_output.py:113-126 | Unless it met `]`, the corrected loop ends only where it is stuck: what is left is stripped, and it is empty or starts with text that the decoder rejects and that is not an owed comma. |
| `Buffer.SafeFeedKeepsSuffix` | src/streamshape/streaming_structured_output_parser/parse_llm_output.py:103-132 | The corrected buffer too holds only a suffix of everything fed. |
| `Split.SafeFeedSplit` | src/streamshape/streaming_structured_output_parser/parse_llm_output.py:98-134 | Feeding `a` and then `b` returns the same elements and leaves the same state as feeding `a + b`. This holds given three hypotheses: the decoder is well behaved, no element is a bare number, and no `[` is still buffered after the closing `]`. |
| `Split.SplitInvariance` | src/streamshape/streaming_structured_output_parser/parse_llm_output.py:98-134 | However the text is cut into deltas, the corrected buffer returns the same elements in the same order and ends in the same state as for the whole text. |
| `Split.ChunkedMatchesWhole` | src/streamshape/streaming_structured_output_parser/parse_llm_output.py:98-134 | From a fresh buffer, any cut of the text fed to the corrected buffer returns exactly what the source's `feed` returns for the whole text. |
| `CommaSplit.LiteralsWellBehaved` | src/streamshape/streaming_structured_output_parser/parse_llm_output.py:124 | The decoder restricted to `true`/`false`/`null` is `Monotone` and `Consistent`, so the counterexample below meets the split theorem's hypotheses. |
| `CommaSplit.AsWrittenLosesComma` | src/streamshape/streaming_structured_output_parser/parse_llm_output.py:129-132 | The buffer as written, fed `[true` and then `,true]`, returns one element and is left holding `,true]`. Fed `[true,true]` whole, it returns both elements and closes the array. |
| `CommaSplit.AsWrittenStaysStuck` | src/streamshape/streaming_structured_output_parser/parse_llm_output.py:113-134 | For any decoder that rejects text starting with a comma, as `raw_decode` does, and from any state with the array open and a comma at the front of the buffer (such as the one `AsWrittenLosesComma` leaves), the buffer as written, fed any sequence of deltas one after another, returns nothing. It only appends the deltas behind the comma, and the array stays open. |
| `CommaSplit.LiteralsRejectComma` | src/streamshape/streaming_structured_output_parser/parse_llm_output.py:124 | The literal decoder of the counterexample, like `raw_decode`, fails on text that starts with a comma. |
| `CommaSplit.CorrectedKeepsComma` | src/streamshape/streaming_structured_output_parser/parse_llm_output.py:113-134 | The corrected buffer, fed the same two deltas, returns both elements and closes the array. |
| `Pipeline.Validate` | src/streamshape/streaming_structured_output_parser/parse_llm_output.py:181-185 | Returns the validated object when the schema accepts, `None` exactly when the schema raises `ValidationError`, and raises exactly when the schema raises anything else. |
| `Pipeline.ValidateAll` | src/streamshape/streaming_structured_output_parser/parse_llm_output.py:235-242 | The loop over one delta's elements yields a data record for each accepted element, in order, and stops at the first validation that raises. |
| `Pipeline.ValidatedAccepted` | src/streamshape/streaming_structured_output_parser/parse_llm_output.py:235-242 | When no validation raises, the loop over one delta's elements yields exactly one data record per element the schema accepts, in order. A rejected element yields nothing and does not hold back the ones after it. |
| `Pipeline.ValidatedStopsAtBroken` | src/streamshape/streaming_structured_output_parser/parse_llm_output.py:235-242 | When the validation of element `k` raises, the loop yields the data records of the accepted elements before `k`, in order, and reports the failure. |
| `Pipeline.ValidatedAppend` | src/streamshape/streaming_structured_output_parser/parse_llm_output.py:235-242 | The loop over two runs of elements yields the records of the first run followed by those of the second, as long as no validation in the first run raises. |
| `Pipeline.Controller.constructor` | src/streamshape/streaming_structured_output_parser/parse_llm_output.py:191-197 | The controller starts with usage `{}` and no raw chunks, over the given client, buffer, decoder and schema. |
| `Pipeline.Controller.Consume` | src/streamshape/streaming_structured_output_parser/parse_llm_output.py:204-217 | One pass of the loop body, through the event's append to `_raw_chunks`, moves the controller's state exactly as `StepLine` does. |
| `Pipeline.Controller.HandleDict` | src/streamshape/streaming_structured_output_parser/parse_llm_output.py:219-242 | The rest of the pass for a dict event: the usage update, the early terminal record after `[DONE]`, and the content fed and validated. All of it is exactly `DictStep`. |
| `Pipeline.Controller.FeedContent` | src/streamshape/streaming_structured_output_parser/parse_llm_output.py:233-242 | The buffer moves as `SafeFeed` says, and the records are the validated elements. |
| `Pipeline.Controller.Stream` | src/streamshape/streaming_structured_output_parser/parse_llm_output.py:199-260 | The records are exactly `Run` over the client's lines and how the client ends, with the corrected buffer of "## Findings" in place of the source's. The response is closed twice when the loop went through a cancelled stream and once otherwise. |
| `Pipeline.Controller.Pump` | src/streamshape/streaming_structured_output_parser/parse_llm_output.py:203-251 | One turn of the loop: pull a line and handle it, or emit the record that ends the stream once the client has no more lines. |
| `Pipeline.Controller.HandleLine` | src/streamshape/streaming_structured_output_parser/parse_llm_output.py:203-251 | The loop body over a line just pulled from the client. When the loop stops there, the generator is dropped and the response is closed once. |
| `Pipeline.Controller.Handle` | src/streamshape/streaming_structured_output_parser/parse_llm_output.py:204-260 | A pass that stops the loop yields the rest of the session: the usage record, or the error record after the records already produced. |
| `Pipeline.ReadTokens` | src/streamshape/streaming_structured_output_parser/parse_llm_output.py:263-265 | `read_tokens` yields exactly `Run` from the initial state over the emission of a fresh client. This uses the corrected buffer of "## Findings", so on the input shown there it yields both elements where the source yields one. |
| `Pipeline.DictEffect` | src/streamshape/streaming_structured_output_parser/parse_llm_output.py:219-242 | A pass over a dict event that carries on updates the usage from the event and yields only data records. A pass that halts yields the terminal record with the event's non-empty usage. |
| `Pipeline.StepEffect` | src/streamshape/streaming_structured_output_parser/parse_llm_output.py:204-242 | A pass that carries on appends the line's event to the raw chunks and takes its usage. A halt reports the new chunks and usage. A failure reports the new chunks. |
| `Pipeline.LastUsageAppend` | src/streamshape/streaming_structured_output_parser/parse_llm_output.py:220-221 | The last non-empty usage over two runs of events is the last one over the second run, starting from the first run's. |
| `Pipeline.RunShape` | src/streamshape/streaming_structured_output_parser/parse_llm_output.py:199-260 | Every stream, whatever its lines and however it ends, yields only data records and then exactly one terminal record. That record reports a prefix of the events, and all of them if the loop went through every line. Unless it is the error record, it carries the last non-empty usage, or `{}`. |
| `Pipeline.UsageAfterDoneEnds` | src/streamshape/streaming_structured_output_parser/parse_llm_output.py:219-231 | After `[DONE]`, a usage-bearing event ends the stream at once. The terminal record carries that usage and the chunks up to it. |
| `Pipeline.DoneThenUsage` | src/streamshape/streaming_structured_output_parser/parse_llm_output.py:206-231 | `[DONE]` followed by a usage-bearing line ends the stream there with that usage, whatever follows. |
| `Pipeline.DoneOnlyArmsUsage` | src/streamshape/streaming_structured_output_parser/parse_llm_output.py:206-242 | With no usage-bearing event, `[DONE]` changes nothing. Content after it is still fed and validated. |
| `Pipeline.FailedBeforeFirstLine` | src/streamshape/streaming_structured_output_parser/parse_llm_output.py:252-260 | A transport that fails on its first fetch yields no lines. `stream()` then yields only the error record, with no raw chunks. |
| `Pipeline.CancelledBeforeFirstLine` | src/streamshape/streaming_structured_output_parser/parse_llm_output.py:245-251 | A stream cancelled before its first item yields no lines: the cancellation check at lines 41-42 (HTTP) or 58-59 (OpenAI) returns first. `stream()` then yields one terminal record, the one at lines 245-251, with usage `{}` and no raw chunks. |
| `Delivery.DictData` | src/streamshape/streaming_structured_output_parser/parse_llm_output.py:219-242 | A dict event without usage whose content, if any, is a string lets the loop carry on. It yields one data record per accepted element its delta completes, moves the buffer on by that delta and leaves the usage and raw chunks alone. |
| `Delivery.StepData` | src/streamshape/streaming_structured_output_parser/parse_llm_output.py:204-242 | A quiet line (the terminator, no event, or such a dict event) lets the loop carry on. It yields the data records for its delta's accepted elements, appends its event to the raw chunks and leaves the usage alone. |
| `Delivery.RunData` | src/streamshape/streaming_structured_output_parser/parse_llm_output.py:199-251 | Over quiet lines, with a schema that never raises, the loop goes through every line. It yields exactly one data record per accepted element of the deltas fed one after another, in order, and then the terminal record over all the events. |
| `Delivery.StreamData` | src/streamshape/streaming_structured_output_parser/parse_llm_output.py:199-265 | With the corrected buffer of "## Findings", under the same conditions and the split hypotheses, the data records of `read_tokens` are those of the elements of the whole content text, fed at once, that the schema accepts, in order. The terminal record follows. The source's `read_tokens` fails this on the input shown in "## Findings", which meets every hypothesis: it yields one data record where this gives two. |

## Left out

- Byte decoding in `_iter_http_stream` (the `encoding` argument and the `errors="ignore"` fallback) is not modelled. Raw lines are taken as already-decoded strings.
- Printing and logging (`❌ Stream cancelled`, `✅ Stream completed`, `Error processing line: ...`) are not modelled. Neither is the text of the `error` entry; the model records only that the entry is present.
- The JSON grammar and number formats are not modelled. `raw_decode`, `json.loads`, `json.dumps` and `model_validate` are parameters; numbers are `real`.
- What the SDK objects' `model_dump()` computes is not modelled. A chunk is its dumped dict.
- The `raw.usage` attribute fallback and `last_usage` in `_iter_openai_stream` are not modelled. Neither affects any yielded line.
- LineSource.Emit: a failing `raw.model_dump()` is modelled as a failed fetch of that item, which the model checks before the cancellation event. The source calls `model_dump()` after that check, so the two differ only when the event is set at that very item.
- Concurrency is not modelled. The cancellation event is set from outside, asynchronously; the model takes its state at each item as a sequence of flags.
- Failures of `response.close()` are not modelled. The source swallows them, and the model only counts the calls.
- The laziness of the generators is not modelled. `Controller.Stream` returns the whole list of records that `stream()` would yield one at a time. A consumer that stops early sees a prefix of that list.
- When a generator is closed is not modelled. After an early stop, the model closes the response at once (`StreamClient.Dispose`); CPython does this when the dropped generator is collected.
- A second call of `stream()` on the same controller is not modelled.
- Split.ChunkedMatchesWhole: requires that no returned element is a bare number and that no `[` follows the closing `]`. A bare number cut across deltas (`[12` then `3]`) can decode early as `12`, so no cut-invariance holds for it.
- Split.SplitInvariance: carries the same hypotheses (`Clean`), for the same reason.
- Delivery.RunData: pins the data records only for streams whose every line is quiet and whose schema never raises. For a stream that stops early (usage after `[DONE]`, an exception), `Pipeline.RunShape` states the shape of the records, and the lemmas on `Validated` state what each pass yields, but no lemma names the data records of the whole stream.

## Findings

| source | as written | input that shows it | evidently intended | confidence | as-written member | corrected member |
|---|---|---|---|---|---|---|
| src/streamshape/streaming_structured_output_parser/parse_llm_output.py:113-134 | A comma after an element is consumed only if it is already in the buffer when the element is decoded. A comma that arrives at the start of the next delta stays at the front of the buffer, where `raw_decode` fails on it forever. | feed `[true` then `,true]` | The elements and the final state do not depend on where the deltas are cut: `[true,true]` gives two elements however it arrives. | not executed | `CommaSplit.AsWrittenLosesComma` | `Buffer.SafeTokenBuffer.Feed` |

The corrected buffer keeps one more flag, `separatorOwed`, which says that an
element was just decoded. When the flag is set, a leading comma is dropped
whenever it arrives. `CommaSplit.CorrectedKeepsComma` checks the same input,
and `Split.SplitInvariance` proves cut-invariance in general. The pipeline
(`Pipeline.DictStep`, `Pipeline.Controller`) uses the corrected buffer.
