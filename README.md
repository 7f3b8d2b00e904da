# custom-chatbot: the streaming chat relay and its client, in Dafny

custom-chatbot is a chat front end for hosted assistants. Its server, a Hono
application, keeps assistants, threads and messages in a SQL database. On
`POST /api/chat/:assistantId` it validates the request, records the user's
message, starts an upstream assistant run, and relays that run's text to the
browser as a server-sent event stream. The browser reads the stream with its
own small frame parser and merges the tokens into a zustand store. The store
holds the transcript, the current selection, the `loading`/`streaming` flags,
the last error and the theme.

This project models:

- **The relay** (`Relay`). This is the `streamSSE` closure with its three
  variables `assistantText`, `messageSaved` and `openaiMessageId`.
  - A pure fold `Step`/`Run` over the signals the closure receives:
    `textCreated`, `textDelta`, `messageCompleted`, `end`, `error`, and a
    throw caught by the `catch`. Each signal carries the outcome of the
    INSERT it may issue. The state logs the assistant-row inserts and the
    frame writes together, in the order they happen.
  - A class `RelayRun` whose handler methods change the closure's state as
    the fold says.
- **The other core handlers of the server.**
  - Chat request validation and the user-message insert (`ChatRequest`).
  - Thread resync from upstream (`Resync`).
  - The parameterised `UPDATE assistants` statement (`UpdateSql`).
  - The `messages` table as a row log (`MessageStore`).
- **The client's frame reader** `streamChat` (`EventStream`). It covers:
  - the buffer loop that cuts frames at `\n\n`;
  - the per-frame loop over `event:`/`data:` lines;
  - the dispatch to `onToken`, `onCompleted`, `onDone` and `onError`.
  The JavaScript string built-ins it relies on are in `JsString`:
  `trim` with the ECMAScript white-space set, `split('\n')`, `slice`,
  `indexOf` and `join`.
- **The wire between the two** (`Wire`). This is the encoding the server's
  `writeSSE` produces. The lemmas read it back with the client's reader, for
  one frame and for a whole relay run.
- **The client store** (`ClientStore`). `StoreState` holds every field, and a
  class `Store` has one method per action. `sendMessage` is a method with a
  loop over the callbacks the reader delivers. It is proved equal to a pure
  specification, and the lemmas about the transcript are stated against that
  specification.

The upstream SDK, the database driver, `fetch` and the clock are not called.
Each operation instead receives what they would return: a value, or the
message of the error they throw.

Some behaviour of the code that a reader might not expect, and which the
model keeps:

- The client marks its in-progress answer only by the sentinel id -1 and
  role `assistant`. The merge therefore removes every entry with that id and
  role, whatever its content, and keeps a user entry with id -1.
- A `done` does not discard the synthetic entry itself. It only starts a
  reload of the transcript. If the reload fails, the synthetic entry stays.
- The save guard tests the *trimmed* buffer. A whitespace-only buffer is not
  saved, and a later signal may still save it.
- Nothing stops an upstream `error` from being followed by the `catch`. Such
  a run writes two `error` frames (`Relay.ErrorThenThrownWritesTwoErrors`).

## Model

| member | source | states |
|---|---|---|
| Relay.RelayRun.constructor | server/src/index.ts:197-199 | a run starts with an empty buffer, the flag down, no upstream id, and an empty log of inserts and frames |
| Relay.RelayRun.SaveMessage | server/src/index.ts:201-210 | inserts an assistant row holding the buffer and the latest upstream id only when the trimmed buffer is non-empty and nothing was saved; the flag goes up only when the insert succeeds, and a failed insert is swallowed |
| Relay.RelayRun.OnTextCreated | server/src/index.ts:217-222 | a truthy id becomes the upstream id; nothing is written |
| Relay.RelayRun.OnTextDelta | server/src/index.ts:224-227 | appends `delta.value \|\| ''` to the buffer and writes exactly one `token` frame carrying the same string |
| Relay.RelayRun.OnMessageCompleted | server/src/index.ts:229-237 | takes a truthy message id, then the log gains the save's insert, if any, followed by one `message_completed`/`done` frame |
| Relay.RelayRun.OnEnd | server/src/index.ts:239-243 | the log gains the save's insert, if any, followed by one `done`/`[DONE]` frame |
| Relay.RelayRun.OnError | server/src/index.ts:245-249 | the log gains the save's insert, if any, followed by one `error` frame with the error's message or `stream error` |
| Relay.RelayRun.OnThrown | server/src/index.ts:252-256 | the log gains the save's insert, if any, followed by one `error` frame with the exception's message or `Failed to stream` |
| Relay.RelayRun.Dispatch | server/src/index.ts:217-249 | routes each signal to its handler; the new state is one step of the run's fold |
| Relay.RunText | server/src/index.ts:224-225 | after any run the buffer is the concatenation of the delta values in arrival order |
| Relay.RunMessageId | server/src/index.ts:217-233 | the upstream id is the latest truthy id seen from `textCreated` or `messageCompleted`, or none |
| Relay.StepOrder | server/src/index.ts:229-256 | one handler keeps everything already logged and adds at most one insert, and an insert it adds is immediately followed by its own frame |
| Relay.InsertBeforeFrame | server/src/index.ts:201-256 | in the log of every run, each insert is immediately followed by a `message_completed`, `done` or `error` frame, never a token, so a client reacting to that frame finds the row stored |
| Relay.RunFrames | server/src/index.ts:224-256 | the frames written are the ones the signals ask for, in arrival order, whatever the inserts do |
| Relay.TokenTextOfAllFrames | server/src/index.ts:224-227 | the `token` payloads of the frames the signals ask for concatenate to the delta text |
| Relay.TokensSpellText | server/src/index.ts:224-227 | the concatenated `token` payloads of a run always equal its buffer |
| Relay.StepRows | server/src/index.ts:201-210 | one handler adds no row once saved, and otherwise adds one row exactly when it calls the save, the trimmed buffer is non-empty and the insert succeeds |
| Relay.RunRows | server/src/index.ts:198-210 | the rows of a run are the row of its first successful save, or none |
| Relay.RunFlag | server/src/index.ts:198-210 | the flag is up exactly when a row has been inserted |
| Relay.AtMostOneRow | server/src/index.ts:198-210 | every run inserts at most one row, and the flag says whether it did |
| Relay.RowIsFirstSave | server/src/index.ts:199-210 | the row holds the buffer as it stood at the first successful save (later deltas are not in it) and the id seen up to that signal |
| Relay.NoSaveNoRow | server/src/index.ts:202 | when no saving signal meets a non-blank buffer with a successful insert, nothing is inserted |
| Relay.HelloScenario | server/src/index.ts:224-243 | deltas `Hel`, `lo`, completion `m1`, end: one row `Hello` with id `m1`; frames token, token, message_completed, done |
| Relay.PartialThenErrorScenario | server/src/index.ts:224-249 | delta `partial` then an error: one row `partial`; frames token then error, no done |
| Relay.BlankBufferWaits | server/src/index.ts:202 | a whitespace-only buffer is not saved at completion; the end saves the buffer grown by a later delta |
| Relay.FailedInsertRetried | server/src/index.ts:203-208 | a failed insert at completion leaves the flag down, so the end inserts the row |
| Relay.LateDeltaNotSaved | server/src/index.ts:198-210 | for any non-blank first delta `a` and any later delta `b`: the buffer becomes `a + b` but the one saved row holds `a` alone, since the completion already saved it |
| Relay.ErrorThenThrownWritesTwoErrors | server/src/index.ts:245-256 | an upstream error followed by a throw writes two `error` frames |
| ChatRequest.ValidateChat | server/src/index.ts:173-185 | the request proceeds exactly when every check passes; otherwise the first failing check answers with its own status (400 non-finite assistant id, 400 missing thread id or content, 404 unknown assistant, 404 unknown thread, 400 thread of another assistant) |
| ChatRequest.OpenChat | server/src/index.ts:173-193 | the table gains exactly the user row when the request proceeds and is unchanged when it is rejected |
| ChatRequest.AcceptedAddsUserRow | server/src/index.ts:193 | an accepted request appends the user row to its thread's history and changes nothing else in it |
| Resync.SyncedRows | server/src/index.ts:148-162 | one row per upstream message, in listing order |
| Resync.InsertedCount | server/src/index.ts:155-161 | fewer inserts than messages succeed exactly when an insert inside the list throws |
| Resync.InsertAll | server/src/index.ts:148-162 | the loop appends the rows of the listing's first `synced` messages and reports completion exactly when every insert succeeded |
| Resync.ResyncThread | server/src/index.ts:130-168 | 400 for a non-finite id, 404 for an unknown thread, and 500 when the thread lookup or the DELETE throws, all leaving the table alone; otherwise it deletes the thread's rows, then appends one row per upstream message and answers `synced`/`total`, or answers 500 with the rows inserted so far when the listing or an insert throws |
| Resync.SyncedRowsOfThread | server/src/index.ts:159 | every inserted row belongs to the thread being synced |
| Resync.ResyncThreadHistory | server/src/index.ts:141-162 | after a resync the thread's history is exactly the rows of the listing's first page, and nothing from later pages |
| Resync.ResyncKeepsOtherThreads | server/src/index.ts:141 | a resync leaves every other thread's history as it was |
| Resync.ResyncIdempotent | server/src/index.ts:141-162 | a second resync against an unchanged upstream leaves the table as the first left it |
| Resync.PartialResyncIsPrefix | server/src/index.ts:148-166 | a resync cut short by a failed insert leaves a prefix of the full resync's history |
| UpdateSql.BuildUpdate | server/src/index.ts:57-69 | one or two `column=$i` clauses with i = 1, 2, … consecutive, the name first when present; the WHERE placeholder is the number of values, and the id is the last value |
| UpdateSql.PlaceholdersConsecutive | server/src/index.ts:57-69 | the statement text reads `UPDATE assistants SET … WHERE id=$n`, and the digits after each `$` spell that clause's position |
| UpdateSql.Execute | server/src/index.ts:69 | running a statement changes no row count |
| UpdateSql.UpdateRows | server/src/index.ts:60-67 | the intended effect: rows with the id take the truthy name and prompt, and every other row is unchanged |
| UpdateSql.StatementMeaning | server/src/index.ts:57-69 | the built statement, with its values bound, has exactly the intended effect |
| UpdateSql.UpdateAssistant | server/src/index.ts:40-76 | 400 for a non-finite id, 400 when there is nothing to update, 404 for an unknown assistant and 500 when upstream throws, all without touching the table; otherwise the table is updated as intended and the answer is the whole row read back, with the new name and prompt and the upstream assistant id unchanged |
| UpdateSql.FindAfterUpdate | server/src/index.ts:71-72 | the read-back finds the found row with the new name and prompt |
| MessageStore.FindAssistant | server/src/index.ts:179-180 | the lookup finds a row with the id exactly when one exists |
| MessageStore.FindThread | server/src/index.ts:183-184 | the lookup finds a row with the id exactly when one exists |
| MessageStore.OfThread | server/src/index.ts:125 | the history keeps only the thread's rows, from the table |
| MessageStore.WithoutThread | server/src/index.ts:141 | the delete keeps only other threads' rows |
| MessageStore.WithoutThreadKeepsOthers | server/src/index.ts:141 | deleting one thread changes no other thread's history |
| MessageStore.MessageTable.DeleteThread | server/src/index.ts:141 | a successful delete removes exactly the thread's rows and keeps the rest in order; a failed one changes nothing |
| MessageStore.MessageTable.Insert | server/src/index.ts:204-208 | a successful insert appends its row; a failed one changes nothing |
| JsString.Trim | client/src/lib/stream.ts:37 | the result is the slice of the string between an all-white-space prefix (up to the first non-white character) and an all-white-space suffix; it is empty exactly when the string is all white space, and otherwise starts and ends with non-white space |
| JsString.IndexOf | client/src/lib/stream.ts:36 | -1 when the needle does not occur, and otherwise its first occurrence |
| JsString.SliceFrom | client/src/lib/stream.ts:44-45 | `slice(k)` keeps the characters from k on, or nothing past the end |
| JsString.Lines | client/src/lib/stream.ts:43 | `split('\n')` gives at least one piece, and no piece holds a line feed |
| JsString.JoinLines | client/src/lib/stream.ts:43 | joining the pieces with `\n` gives the string back |
| JsString.LinesJoin | client/src/lib/stream.ts:43 | splitting lines without line feeds, joined with `\n`, gives the lines back |
| JsString.DecimalRoundTrip | server/src/index.ts:61-69 | the decimal spelling of a placeholder index reads back as that index |
| EventStream.DecodeFrame | client/src/lib/stream.ts:41-46 | the loop over the frame's lines computes the event name and data of the line-by-line reading |
| EventStream.LastEventWins | client/src/lib/stream.ts:41-44 | the event name is the text after index 7 of the last `event:` line, or the starting name when there is none |
| EventStream.DataIsJoin | client/src/lib/stream.ts:42-45 | the data is the `data:` line bodies from the first non-empty one on, joined with `\n`; other lines are ignored |
| EventStream.FrameCallbacks | client/src/lib/stream.ts:37-39 | a frame that is blank after trimming produces no callback |
| EventStream.HandleFrame | client/src/lib/stream.ts:37-50 | one cut frame is trimmed, read and dispatched |
| EventStream.DrainBuffer | client/src/lib/stream.ts:35-51 | the inner loop dispatches every frame the buffer holds and keeps the rest |
| EventStream.DrainJoin | client/src/lib/stream.ts:35-38 | the frames cut and the rest, put back together with `\n\n`, give the buffer |
| EventStream.DrainLeftover | client/src/lib/stream.ts:35-38 | what stays in the buffer holds no `\n\n` |
| EventStream.DrainWellCut | client/src/lib/stream.ts:36-37 | no cut frame holds `\n\n` |
| EventStream.DrainOfFrames | client/src/lib/stream.ts:35-38 | frames without `\n\n`, each followed by `\n\n`, are cut back exactly |
| EventStream.DrainAppend | client/src/lib/stream.ts:33-38 | cutting before and after a chunk arrives gives the same frames as cutting the whole text |
| EventStream.StreamChat | client/src/lib/stream.ts:26-52 | whatever the chunking, the callbacks are those of the concatenated text, and the text after the last `\n\n` stays undispatched |
| Wire.EncodedFrameRead | client/src/lib/stream.ts:37-50 | an encoded frame is read back as its event with the received data |
| Wire.DecodeEncoded | client/src/lib/stream.ts:35-50 | one encoded frame gives exactly its callback, carrying the received data, and leaves nothing in the buffer |
| Wire.ReceivedPreserved | client/src/lib/stream.ts:37-45 | data that neither starts with a line feed nor ends in white space is received unchanged |
| Wire.RoundTrip | client/src/lib/stream.ts:37-45 | such data is handed to the callback exactly as the server wrote it |
| Wire.DecodeStream | client/src/lib/stream.ts:30-51 | a stream of encoded frames gives, in order, each frame's callback with its received data, and leaves nothing buffered |
| Wire.RelayFramesEncodable | server/src/index.ts:224-255 | every frame the relay writes has a non-empty event name without line feeds |
| Wire.RelayReachesClient | client/src/lib/stream.ts:30-51 | for every run, the client's callbacks are those of the relay's frames, in order |
| ReaderFindings.TrailingSpaceDropped | client/src/lib/stream.ts:37 | a one-line token made of a word and a trailing space, such as `Hello `, reaches onToken as the word alone |
| ReaderFindings.ParagraphBreakDropped | client/src/lib/stream.ts:45 | the token `\n\n` reaches onToken as the empty string |
| ReaderFindings.IntendedFrameRead | client/src/lib/stream.ts:41-46 | without the trim and the empty-data test, an encoded frame is read back as its event and its exact data |
| ReaderFindings.IntendedRoundTrip | client/src/lib/stream.ts:37-45 | the corrected reader hands every payload to its callback exactly as written |
| ReaderFindings.IntendedRelayReachesClient | client/src/lib/stream.ts:30-51 | with the corrected reader, every relay run reaches the client as exactly the frames written, payloads included |
| ClientStore.Store.constructor | client/src/store/useStore.ts:41-50 | empty lists, no selection, flags down, no error, dark theme |
| ClientStore.Store.LoadAssistants | client/src/store/useStore.ts:52-62 | the new store is `AssistantsLoaded` of the old one and the call's outcome, whose meaning `ClientStore.LoadAssistantsOutcome` states |
| ClientStore.LoadAssistantsOutcome | client/src/store/useStore.ts:52-62 | ends not loading; a non-empty list is stored and its first entry selected; an empty list leaves list and selection alone and records the `data[0].id` TypeError; a throw leaves list and selection alone and records its message; the selection stays consistent |
| ClientStore.Store.LoadThreads | client/src/store/useStore.ts:110-120 | clears the error, then stores the list or the error, and ends not loading |
| ClientStore.Store.LoadMessages | client/src/store/useStore.ts:127-137 | clears the error, then stores the list or the error, and ends not loading |
| ClientStore.Store.SelectAssistant | client/src/store/useStore.ts:64-70 | selects the id and the matching assistant, clears the thread and the transcript, loads threads only for a truthy id, and keeps the selection consistent |
| ClientStore.Store.CreateAssistant | client/src/store/useStore.ts:72-83 | prepends the new assistant and selects its id (not its record), then loads its threads; a failure records the error; ends not loading |
| ClientStore.Store.UpdateAssistant | client/src/store/useStore.ts:85-95 | replaces the entries with the id by the updated record; a failure records the error; ends not loading |
| ClientStore.ReplaceById | client/src/store/useStore.ts:89 | same length and order; exactly the entries with the id are replaced |
| ClientStore.FindAfterReplace | client/src/store/useStore.ts:89 | after the replacement the id finds the update exactly when it found something before; other ids find what they found before |
| ClientStore.Store.CreateThread | client/src/store/useStore.ts:97-108 | prepends the new thread and selects it, then loads its messages; a failure records the error; ends not loading |
| ClientStore.Store.SelectThread | client/src/store/useStore.ts:122-125 | selects the id, clears the transcript, and loads messages only for a truthy id |
| ClientStore.Store.SetTheme | client/src/store/useStore.ts:168-169 | only the theme changes |
| ClientStore.Flip | client/src/store/useStore.ts:179 | the toggled theme differs from the current one |
| ClientStore.Store.ToggleTheme | client/src/store/useStore.ts:178-181 | swaps light and dark and changes nothing else |
| ClientStore.WithoutSynthetic | client/src/store/useStore.ts:150 | the filter leaves no synthetic entry |
| ClientStore.WithoutSyntheticMembers | client/src/store/useStore.ts:150 | an entry survives the filter exactly when it is not the synthetic one, a user entry with id -1 included |
| ClientStore.WithoutSyntheticAppend | client/src/store/useStore.ts:150 | the filter distributes over concatenation, so surviving entries keep their order |
| ClientStore.MergeToken | client/src/store/useStore.ts:150-151 | after a token the last entry is the synthetic one holding the whole buffer |
| ClientStore.SingleSynthetic | client/src/store/useStore.ts:145-151 | after a token there is exactly one synthetic entry, and every non-synthetic entry is kept |
| ClientStore.MergeReplaces | client/src/store/useStore.ts:147-151 | a second token replaces the synthetic entry rather than adding one |
| ClientStore.Store.TokenArrived | client/src/store/useStore.ts:147-151 | the buffer grows by the token, and the transcript is merged with the new buffer |
| ClientStore.Store.SendMessage | client/src/store/useStore.ts:139-166 | the loop over the delivered callbacks, with its running buffer, leaves the store that `AfterSend` specifies, whose transcript and flags the lemmas below characterise |
| ClientStore.DeliverBuffer | client/src/store/useStore.ts:145-148 | the buffer is the concatenation of the tokens delivered |
| ClientStore.DeliverKeeps | client/src/store/useStore.ts:146-160 | the callbacks change only the transcript, the error and the loading flag |
| ClientStore.DeliverTranscript | client/src/store/useStore.ts:146-152 | without a `done`, the transcript is merged with the whole token text once a token has arrived, and is unchanged otherwise |
| ClientStore.SendTranscript | client/src/store/useStore.ts:143-151 | the optimistic user entry is appended after the existing ones; once tokens arrived, the transcript is the earlier non-synthetic entries, the user entry, and one synthetic entry holding all tokens |
| ClientStore.SendFlags | client/src/store/useStore.ts:140-165 | `streaming` ends false; a throw leaves its message as the error; with no throw, error callback or `done` the error stays cleared; no other field changes |
| ClientStore.SendDoneReloads | client/src/store/useStore.ts:153-156 | after `done` with a successful reload, the transcript is the server's list |
| ClientStore.SendErrorOnlySetsError | client/src/store/useStore.ts:157-159 | an error callback sets the error and nothing else, so the synthetic entry stays |

Some definitions have no row of their own because their contracts only
name what they compute; their meaning is carried by the lemmas that use
them. They are `ChatRequest.UserRow` (by `ChatRequest.AcceptedAddsUserRow`
and `ChatRequest.OpenChat`), `Resync.ContentOf` and `Resync.RowOf` (by
`Resync.SyncedRows` and `Resync.ResyncThreadHistory`), `MessageStore.OrElse`
(by the relay handlers' rows), and `EventStream.Dispatch` (by
`Wire.DecodeEncoded` and `Wire.RoundTrip`).

## Left out

- Routes outside the core are not modelled, and neither are the OpenAI calls made before streaming: creating assistants and threads, listing, and `messages.create`. For the latter the model only takes their results.
- The outer `catch` of the chat route (server/src/index.ts:258-260) is not modelled. It answers 500 when a database lookup, the user-message insert or the upstream message post throws before streaming.
- ChatRequest.ValidateChat: a body field of a JSON type other than the declared one (a non-empty string `threadId`, say) is mapped to an absent field and answered 400. The source lets any truthy value past the check at server/src/index.ts:177 and hands it to the SQL queries, where the outcome depends on the database's casts; a failure there lands in the outer `catch`, which is not modelled either.
- UpdateSql.UpdateAssistant: `name` and `instructions` are optional strings, so a body field of another JSON type (`{"name": 5}`, say) is outside the model. The source lets any truthy value past the check at server/src/index.ts:46, passes it to the upstream update and binds it in the UPDATE (server/src/index.ts:59-69), where the outcome depends on the upstream API and the database's casts; a throw there becomes the route's 500.
- Malformed JSON bodies are left out. So are finite route numbers that are not integers (`Number('1.5')`): ids are `Finite(int)` or `NonFinite`.
- The resync takes `messages.data`, the first page of `messages.list` at the API's default page size, as its list of upstream messages. The source fetches no further page, and the DELETE has already removed the thread's stored rows, so a thread longer than one page loses its later messages on resync. The model has no notion of pages: `Resync.ResyncThreadHistory` states that the history becomes exactly the rows of that first page.
- History order: `GET /api/messages` orders by `created_at`. `MessageStore.OfThread` keeps table order, and the timestamps of rows inserted without one (database default) are not modelled.
- Database failures in the update handler's SELECT, UPDATE and read-back are not modelled. Only the upstream update call may fail.
- `streamSSE`/`writeSSE` internals are not part of this model. The encoding in `Wire.EncodeFrame` is the one Hono's `writeSSE` uses, taken as given.
- Relay.AtMostOneRow: holds for handlers that each run to completion before the next signal. The source's handlers are `async` and the emitter does not await them, so an `end` arriving while the `messageCompleted` insert is pending also sees the flag down. Such interleavings are not modelled.
- Relay.StepOrder: rests on the same schedule, one handler run to completion at a time. In the source a `textDelta` handled while the `messageCompleted` INSERT is pending writes its `token` frame between that insert and the `message_completed` frame.
- Relay.InsertBeforeFrame: rests on the same schedule as `Relay.StepOrder`. Under the source's un-awaited handlers, an insert can be followed by a `token` frame of a delta that arrived while the insert was pending.
- `TextDecoder` and `reader.read()` are not modelled: chunks arrive as strings.
- `fetch`, a response that is not OK, and its error extraction (client/src/lib/stream.ts:15-24) are left out. A throw from `streamChat` is the `thrown` parameter of `ClientStore.Store.SendMessage`.
- ClientStore.Store.SendMessage: the `done` callback's `loadMessages` is not awaited in the source. The model completes that reload at the callback, with its outcome given as a parameter.
- The creation time of the optimistic and synthetic entries is one `stamp` parameter. The optimistic id is the `now` parameter.
- ClientStore.SendTranscript: stated for callback sequences without a `done`. After a `done` the transcript is whatever the reload produced (`ClientStore.SendDoneReloads`).
- `UndefinedIdError` is V8's wording of the TypeError that `data[0].id` raises on an empty list. Other engines word it differently.
- zustand's `persist`/localStorage and the `document.documentElement` class toggled by `setTheme` are not modelled.
- The `created_at` columns of assistants and threads are not modelled at all: the records have no such field. The title of a thread is carried by its record but not used.

## Findings

| source | as written | input that shows it | evidently intended | confidence | as-written member | corrected member |
|---|---|---|---|---|---|---|
| client/src/lib/stream.ts:37 | the whole frame is trimmed, which also strips trailing white space from the last `data:` line | a `token` frame whose data is `Hello ` (written as `event: token`, `data: Hello `, blank line) reaches onToken as `Hello` | every token reaches onToken as the server wrote it | not executed; rests on the `writeSSE` encoding taken for Hono | ReaderFindings.TrailingSpaceDropped | ReaderFindings.IntendedRoundTrip |
| client/src/lib/stream.ts:45 | a line feed is added before a data line only when the data so far is non-empty, so leading empty lines vanish | a `token` frame whose data is `\n\n` (three `data: ` lines) reaches onToken as the empty string | a paragraph-break token arrives as `\n\n` | not executed; rests on the `writeSSE` encoding taken for Hono | ReaderFindings.ParagraphBreakDropped | ReaderFindings.IntendedRoundTrip |
