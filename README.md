# Time-management workspace: the LLM proxy and the task records

This project models the part of the time-management workspace server (`app.py`) that has real logic, and proves properties of that model:

- **The streaming re-framer** of `stream_llm_response`. The server forwards a chat request to an LLM endpoint and reads its server-sent-events answer. Server-sent events are the `data:` line convention of section 9.2 of the WHATWG HTML Living Standard. The re-framer:
  - cuts the answer into lines;
  - decodes the `data:` payloads;
  - drops empty and repeated deltas;
  - sends the rest on in groups of five.

  The answer stops at `[DONE]`, and a transport error gives one error frame.
- **The request builder** of `submit_llm`. It checks the six keys the client must send, sets `stream` to true when the client leaves it out, and chooses between a 400 answer, a streamed answer and a blocking one.
- **The task records:**
  - the record `add_task` creates;
  - the hashtag update `update_task_by_hashtag`, which stores one field of an LLM answer in a task;
  - the field merge of `update_task_details`.

Modules:

- `Wrappers`: `Option` and `Result`.
- `Json`: JSON values as Python holds them after `json.loads`, and Python truthiness.
- `Text`: `strip`, `startswith`, `split('\n')`, `join`, and their lemmas.
- `Sse`: the re-framer as functions over values.
  - One line is classified (`Classify`) and handled (`Handle`).
  - `HandleAll` handles the lines of a chunk, `FeedChunk` one chunk, `FeedAll` the chunks, and `Run` the whole stream.
  - It also holds the reference definitions the re-framer is compared with: `Deltas`, `Dedupe` and `Emitted`.
- `SseProofs`: the properties of the re-framer. These are chunk-boundary independence, order preservation, group sizes and the end of the stream.
- `Proxy`: the generator as it runs, written imperatively.
  - `Reframer` is a class whose fields are the generator's variables.
  - Its methods are `HandleLine`, `Feed` (with the line loop) and `Flush`.
  - `StreamLlmResponse` holds the chunk loop.
  - Every method is proved equal to the `Sse` function it implements.
  - The frames the generator yields are `RenderAll` of the events: one `Render` per event, in order. `RenderAll` is that definition and nothing more, so its properties come through `Sse.Render` and `Proxy.StreamLlmResponse`.
- `Submit`: the upstream request and the reply of `submit_llm`.
- `Tasks`: task records as JSON objects, and the fix for a task-id bug (see [Findings](#findings)). `TaskStore` is a class holding the task list, with `AddTask`, `UpdateTaskByHashtag` and `UpdateTaskDetails`.
  - `TaskSlot` is the definition of the corrected id guard (an id selects a task when 0 <= id < number of tasks). What it promises is carried by the ensures of `TaskStore.UpdateTaskByHashtag` and by `SlotsAgreeOnPositions`.
  - `TaskStore.Valid` says every task has the seven editable fields. It is an invariant of well-formed stores: every method preserves it, but none requires it, because each asks only for what it reads.

Inputs outside the program become parameters:

- **The upstream answer** is an `Upstream` value: the text chunks it delivered, and optionally the message of a `requests` exception that ended it. An exception before the first chunk is a connection or status failure.
- **JSON decoding of a payload** is a `Parser` parameter. It returns `ParseOk(content)` when `json.loads` succeeds, where `content` is `choices[0].delta.content` (`""` when that key is absent, and `""` as well when its value is `null`, which Python's `.get` returns as `None` and the truthiness test drops). It returns `ParseErr` when `json.loads` raises `JSONDecodeError`.
- **The configuration's `llm_api` section** is a JSON object parameter.

The re-framer is modelled as the code is written, not as a cleaned-up protocol:

- Empty deltas are dropped before duplicate suppression.
- `previous_token` survives a flush, so a repeat is dropped even across groups.
- At `[DONE]` the pending deltas are **not** flushed.
- The unterminated rest of the body is never decoded, even when it holds a complete `data:` line.

## Model

| member | source | states |
|---|---|---|
| Text.Split | app.py:296 | `split('\n')` gives at least one piece, and no piece contains a newline |
| Text.TrimStartShape | app.py:298 | the leading part `strip` removes is whitespace, what it keeps is a suffix, and that suffix starts with a non-space |
| Text.TrimEndShape | app.py:298 | the trailing part `strip` removes is whitespace, what it keeps is a prefix, and that prefix ends with a non-space |
| Text.StripShape | app.py:298 | `strip` gives a slice of the line with only whitespace around it, empty or starting and ending with a non-space |
| Text.StripSurrounding | app.py:298-301 | stripping whitespace + m + whitespace gives m back, for any m without surrounding spaces |
| Text.StripIdempotent | app.py:298-301 | stripping twice is stripping once |
| Text.SplitNoNewline | app.py:296 | a string without a newline splits into itself |
| Text.SplitAppend | app.py:294-296 | splitting x + y gives the complete lines of x, then the split of x's unterminated rest followed by y |
| Text.SplitSnoc | app.py:294-322 | after appending y, the complete lines are the old complete lines plus those that y completes, and the new rest is the rest after y |
| Text.JoinSplit | app.py:296 | joining the pieces of a split with newlines gives the string back |
| Text.SplitJoin | app.py:296 | splitting newline-free pieces joined by newlines gives the pieces back |
| Sse.Render | app.py:304-328 | every frame starts with `data:` and ends with a blank line |
| Sse.FeedChunk | app.py:291-322 | if the buffer had no newline and the stream goes on, the new buffer has no newline |
| Sse.Dedupe | app.py:311-313 | the kept deltas are non-empty, no two adjacent ones are equal, the first differs from the previous token, and there are no more of them than deltas |
| SseProofs.HandleAllClosed | app.py:303-305 | after the sentinel no line changes the state or sends anything |
| SseProofs.HandleAllAppend | app.py:297-320 | handling lines a + b is handling a, then b from the state a left |
| SseProofs.HandleAllSnoc | app.py:297-320 | one more line after lines p takes effect only if p did not end the stream |
| SseProofs.ProcessLinesAppend | app.py:297-320 | processing lines a + b is processing a, then b from where a left off |
| SseProofs.ProcessLinesSnoc | app.py:297-320 | one more line is processed by `ProcessLine`, unless the sentinel came before it |
| SseProofs.ProcessLinesPrefixClosed | app.py:303-305 | once a prefix of the lines reached the sentinel, the remaining lines add nothing |
| SseProofs.ClosedIffTerminator | app.py:303-305 | the line loop ends early if and only if one of its lines is the sentinel |
| SseProofs.IgnoredLineSkipped | app.py:300 | a line that is not a `data:` line emits nothing and changes no state: the lines around it are processed as if it were absent |
| SseProofs.MalformedLineReported | app.py:307-320 | a payload that is not JSON sends exactly one invalid-format event, and the next lines are processed from an unchanged state |
| SseProofs.SentinelEndsStream | app.py:303-305 | the sentinel sends `Done` last, the pending deltas are not sent, and later lines are not processed |
| SseProofs.HandleAllShape | app.py:311-317 | fewer than five deltas stay pending, and the last of them is the last accepted delta; every event of the line loop is an error, the sentinel or exactly five tokens; `Done` comes last if at all |
| SseProofs.FeedAllClosed | app.py:303-305 | after the sentinel no chunk is read |
| SseProofs.FeedAllPrefixClosed | app.py:303-305 | once a prefix of the chunks has reached the sentinel, the remaining chunks add nothing |
| SseProofs.FeedAllSnoc | app.py:291-322 | one more chunk is fed to where the earlier chunks left the state |
| SseProofs.ConcatSnoc | app.py:294 | one more chunk extends the body by that chunk |
| SseProofs.FeedChunkLines | app.py:292-322 | before the sentinel, one chunk processes exactly the lines that buffer + chunk completes, and keeps the unterminated rest as the buffer |
| SseProofs.FramingStep | app.py:291-322 | the framing property carries over to one more chunk |
| SseProofs.Framing | app.py:291-322 | feeding any chunks processes exactly the complete lines of buffer + concatenated chunks, and keeps the unterminated rest as the buffer |
| SseProofs.BetweenChunks | app.py:294-322 | between chunks, the buffer has no newline and is the rest after the last newline of the body, and fewer than five deltas are pending |
| SseProofs.RunFromLines | app.py:280-328 | the whole output depends on the completed lines of the body alone |
| SseProofs.SameBodySameOutput | app.py:291-325 | two chunkings of the same body give the same output |
| SseProofs.TrailingFragmentIgnored | app.py:322-325 | a final fragment without a newline changes nothing, even when it holds a whole `data:` line |
| SseProofs.EmittedAppend | app.py:316-325 | the tokens sent by two event sequences in a row are the tokens of the first, then those of the second |
| SseProofs.DeltasSnoc | app.py:307-313 | before the sentinel, one more line adds its delta, if it has one, to the deltas |
| SseProofs.DedupeSnoc | app.py:311-313 | one more delta is kept exactly when it is non-empty and differs from the last kept one |
| SseProofs.EmittedSnoc | app.py:316-325 | one more event adds its tokens, if it is a token event, to the tokens sent |
| SseProofs.HandleKeepsOrder | app.py:307-320 | one line keeps the order invariant: tokens sent plus tokens pending equal the kept deltas; the previous token is the last kept one |
| SseProofs.TokenOrderStep | app.py:297-320 | the order invariant carries over to one more line |
| SseProofs.TokenOrder | app.py:297-320 | for the line loop, the pending deltas after the tokens sent equal the deltas kept by duplicate suppression, in arrival order; the previous token is the last one kept |
| SseProofs.RunTokens | app.py:280-328 | the tokens the stream sends are a prefix of the kept deltas; with no `[DONE]` and no transport error they are all of them, in order |
| SseProofs.NoAdjacentDuplicates | app.py:311-317 | no token sent is empty, and no two consecutive tokens sent are equal, even across groups |
| SseProofs.PrefixNoAdjacent | app.py:311-317 | a prefix of a token sequence without empty or adjacent equal tokens has neither |
| SseProofs.RunShape | app.py:303-328 | token events carry one to five deltas, and exactly five unless they are last; `Done` is the last event if and only if a completed line is the sentinel; a transport error is the last event; a failure before any chunk gives only that error |
| SseProofs.RunStopsAtSentinel | app.py:300-305 | the output is what the lines before the sentinel sent, followed by `Done`; nothing pending is flushed, and no later line, chunk or error adds anything |
| SseProofs.PayloadOf | app.py:300-301 | `data:` + whitespace + payload starts with `data:`, and stripping after the prefix gives the payload |
| SseProofs.DataLineStrips | app.py:298 | stripping a `data:` line surrounded by whitespace leaves `data:` + its spacing + payload |
| SseProofs.ClassifyStripped | app.py:300-320 | a line that strips to `data:` + whitespace + payload is the sentinel when the payload is `[DONE]`; otherwise it is what decoding gives |
| SseProofs.ClassifyBareDataField | app.py:298-320 | a bare `data:` line, with only whitespace around it and after the colon, has the empty payload: malformed when `""` does not decode (as `json.loads` rejects it), otherwise the delta it decodes to |
| SseProofs.ClassifyDataField | app.py:298-320 | a `data:` line, with any whitespace around it and after the colon, is the sentinel for `[DONE]`, malformed when the payload (possibly empty) does not decode, and otherwise the decoded delta |
| SseProofs.ExampleLines | app.py:296-297 | a body of five copies of a line l, then a line t, each ended by a newline, has exactly those six complete lines (with l = `data: x` and t = `data: [DONE]` this is the body of `RepeatedDeltaThenSentinel`) |
| SseProofs.ExampleDataLine | app.py:298-309 | `data: x` is the delta that `x` decodes to |
| SseProofs.ExampleSentinelLine | app.py:298-303 | `data: [DONE]` is the sentinel, whatever the decoder |
| SseProofs.ExampleKinds | app.py:297-309 | five lines that decode to the delta `Hi`, then the sentinel line, are classified as five `Delta("Hi")` then `Terminator` |
| SseProofs.ExampleRepeats | app.py:311-313 | five equal deltas leave one pending token and send nothing |
| SseProofs.RepeatedDeltaThenSentinel | app.py:280-325 | five equal deltas and then `[DONE]`: the output is `data:[DONE]` alone, because the one pending token is lost |
| Proxy.Reframer.constructor | app.py:286-289 | the generator starts with an empty buffer, no pending tokens and no previous token |
| Proxy.Reframer.HandleLine | app.py:297-320 | one line updates the generator's variables and sends events exactly as `ProcessLine` says; the buffer is untouched |
| Proxy.Reframer.Feed | app.py:291-322 | one chunk updates the state and sends events exactly as `FeedChunk` says (loop over the complete lines with an exit at the sentinel) |
| Proxy.Reframer.Flush | app.py:324-325 | the final flush sends the pending tokens as one event if there are any |
| Proxy.StreamLlmResponse | app.py:280-328 | the generator's frames are `RenderAll(Run(up, decode))`, so every `SseProofs` property holds of them |
| Submit.FirstMissing | app.py:344-359 | no key is reported if and only if all are present; otherwise the key reported is absent and every key before it is present |
| Submit.BuildRequest | app.py:344-355 | the build fails if and only if the model or one of the six client keys is missing; a built request has exactly the seven request keys |
| Submit.SubmitLlm | app.py:343-365 | the reply is a 400 if and only if building the request fails, so nothing goes upstream then |
| Submit.RequestCarriesData | app.py:345-353 | the request carries the configured model, then the system and user messages in that order, with the client's texts and the four settings unchanged |
| Submit.StreamDefaultsToTrue | app.py:354-365 | `stream` is the client's value, or true when absent; the reply streams exactly when it is truthy and otherwise is blocking, with the same request |
| Submit.ModelMissingReported | app.py:344-359 | without a configured model, the 400 names `'model'`, whatever the client sent, because the model is read first |
| Submit.MissingKeyReported | app.py:344-359 | with the model configured, the 400 names the first missing client key in the order the request reads them |
| Tasks.NewTask | app.py:56-74 | the new record has exactly the eleven task keys, the given title, is not completed, `description`, `uml_diagram`, `ascii_diagram` and `additional_info` are `""`, `subtasks`, `acceptance_criteria`, `test_cases` and `related_tasks` are `[]`, and it has the four configured settings plus the fixed system message |
| Tasks.ApplyHashtag | app.py:92-105 | a known hashtag changes only its own field. The `#gen...` tags change it only when the answer has the key, copying the answer's value. `#addnotes` sets it to the answer's value, or `""` when absent. No key is removed |
| Tasks.UnknownHashtagChangesNothing | app.py:92-105 | an unknown hashtag leaves the task unchanged |
| Tasks.HashtagIdempotent | app.py:92-105 | applying the same answer twice is applying it once |
| Tasks.AssignDetails | app.py:264-270 | the seven assignments neither add nor remove keys |
| Tasks.AssignDetailsIsMerged | app.py:264-270 | assigning the keys one after another is the same as one merge over the set of keys |
| Tasks.MergeDetailsFields | app.py:264-270 | each editable field takes the sent value when one is sent and keeps its own otherwise; every other field, `uml_diagram` included, is unchanged; no key is added or removed |
| Tasks.MergeDetailsIdempotent | app.py:264-270 | the same edit twice is the edit once; an empty edit changes nothing; a merged task still has the editable fields |
| Tasks.AsWrittenSlot | app.py:88-89 | `task_id < len(tasks)` followed by Python indexing, which counts negative ids from the end; a selected index is always in range |
| Tasks.NegativeIdSelectsFromEnd | app.py:88-89 | with three tasks, id -1 selects the last task and id -4 raises `IndexError`, where the corrected rule finds no task |
| Tasks.SlotsAgreeOnPositions | app.py:88-89 | for non-negative ids, the guard as written and the corrected guard select the same task |
| Tasks.TaskStore.constructor | app.py:86-89 | the store holds the loaded task list and the configured settings |
| Tasks.TaskStore.AddTask | app.py:53-82 | the new record is appended at the end of the list, and every task still has the editable fields |
| Tasks.TaskStore.UpdateTaskByHashtag | app.py:85-111 | an id that selects no task gives `None` and changes nothing; otherwise only the selected task changes, by `ApplyHashtag`, and it is returned |
| Tasks.TaskStore.UpdateTaskDetails | app.py:255-277 | an id past the end gives `None` and changes nothing; otherwise only that task changes, by `MergeDetails`, and it is returned. The id is a `nat` because Flask's `<int:task_id>` converter accepts no sign, so the same guard text as in `update_task_by_hashtag` cannot see a negative id here |

## Left out

- Flask routing, `request`, `jsonify`, `Response`, templates and logging: framework plumbing. The replies of `submit_llm` are a `Reply` value, not HTTP responses.
- File persistence (`load_tasks`, `save_tasks`, `load_config`): I/O. The task list is the field of a `TaskStore`, and the `llm_api` section is a parameter. The fallbacks of `load_tasks` for a missing, empty or unreadable file are not modelled.
- `requests.post`, `raise_for_status` and `iter_content` are network calls. The endpoint URL is read from the configuration; a configuration without `url` raises a `KeyError` that the generator does not catch, which is not modelled. The upstream is a given sequence of chunks and an optional exception message. The exception's text is a parameter.
- UTF-8 decoding of chunks: chunks are text. The decode error on a multi-byte character split between chunks is not modelled.
- `json.loads` and the lookup of `choices[0].delta.content` are the `Parser` parameter. A payload that is valid JSON but lacks `choices` or `delta` raises an exception that the generator does not catch. That path is not modelled.
- `"content": null` in a delta: `.get('content', '')` gives `None`, which the truthiness test drops. The model matches only when the `Parser` returns `ParseOk("")` for such a payload.
- A delta whose `content` is truthy but not a string (a number, a list): Python keeps it as `previous_token` and the pending list, and the `' '.join` then raises a `TypeError` that nothing catches. `Parser` contents are strings, so the model cannot represent this.
- The non-streaming branch (`get_llm_response` and parsing its answer): network and JSON parsing. The model stops at the `Blocking` reply.
- Audio (`pyttsx3`, `pygame`, `generate_audio`, `get_audio_file`) works on devices and files.
- `submit_reflection` and `analyze_reflection` average floats, and they depend on `user_data` and `update_insights`, which `app.py` does not define.
- `delete_task` filters on an `id` key that no task record has.
- The `parent_task` branch of `add_task`: no caller passes a parent. `TaskStore.AddTask` models the call without one.
- Tasks.NewTask: requires the four settings in the `llm_api` section. Without one, Python raises a `KeyError` that nothing catches.
- Tasks.TaskStore.UpdateTaskByHashtag: implements the corrected guard `TaskSlot`, not the guard as written at app.py:88-89. For -len <= id < 0 the source updates and returns the task len + id, and for id < -len it raises an uncaught `IndexError`; the method returns `None` for both. `Tasks.AsWrittenSlot` models the guard as written (see [Findings](#findings)).
- Tasks.TaskStore.UpdateTaskDetails: requires the selected task to have the seven editable fields. Without one, Python raises a `KeyError` that nothing catches. Every task made by `add_task` has them, and `TaskStore.Valid` is preserved by all three methods.
- Submit.BuildRequest: the client's JSON and the `llm_api` section are taken to be JSON objects. Python raises `TypeError` for anything else.
- Tasks.ApplyHashtag: the LLM answer is taken to be a JSON object. For a string or a list, Python's `in` tests a substring or an element.

## Findings

| source | as written | input that shows it | evidently intended | confidence | as-written member | corrected member |
|---|---|---|---|---|---|---|
| app.py:88-89 | `if task_id < len(tasks)` admits negative ids, and `tasks[task_id]` then counts from the end | three tasks and `task_id = -1` update the last task; `task_id = -4` raises `IndexError` | an id outside 0 .. len-1 is "Task not found" | medium, not executed | Tasks.AsWrittenSlot, Tasks.NegativeIdSelectsFromEnd | Tasks.TaskStore.UpdateTaskByHashtag, Tasks.TaskSlot |
