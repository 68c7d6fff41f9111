# kubectl-ai core, modelled in Dafny

This project models six pieces of kubectl-ai's logic and proves properties of them:

- **HTTP journal stream summary** (`gollm/http_journal.go`, `processStream`). A Server-Sent-Events body is read line by line, using the "data:" framing of the WHATWG HTML Living Standard, section 9.2 "Server-sent events". Text deltas are concatenated. Fragmented tool calls are reassembled per call index, and each index becomes one significant event.
- **OpenAI Responses adapter** (`gollm/openai_response.go`). This covers:
  - tool-call conversion;
  - `Candidates`, `Parts`, `AsText` and `AsFunctionCalls`;
  - how a turn's contents enter the input history;
  - how response items are folded back into the history;
  - tool-definition conversion;
  - the trivial `Send`, `Initialize` and `IsRetryableError`.
- **Session store** (`pkg/sessions/session.go`). The history file is an append-only log of JSON records, supporting append, replace, read and truncate. Metadata counters are updated by read-modify-write.
- **Session manager** (`pkg/sessions/manager.go`). This covers:
  - the session-ID format `YYYYMMDD-NNNN` and the fact that lexicographic order on IDs follows the creation day, then the random draw;
  - listing sessions in descending ID order (latest day first);
  - finding the session with the greatest ID and looking one up by ID;
  - deleting a session and reading its info;
  - creating a session.
- **Chat logger** (`pkg/agent/chat_logger.go`). This is a transparent decorator, described by the trace of what it writes to the store and what it yields to its consumer.
- **Benchmark decisions** (`k8s-bench/eval.go`). This covers:
  - `getLastNLines`;
  - timeout defaulting and clamping;
  - the "output after the last `Running:` line" rule;
  - the expectation loop and the verdict;
  - the verifier failure message;
  - the task-loading filters;
  - the workspace-copy filter.

## Layout

| file | module | contents |
|---|---|---|
| `wrappers.dfy` | `Wrappers` | `Option`, `Result` |
| `strings.dfy` | `Strings` | The parts of Go's `strings` package the code uses: `HasPrefix`, `TrimSpace`, `Index`, `LastIndex`, `Split`, `Join`, and byte-wise `<` on strings. |
| `filesystem.dfy` | `FileSystem` | Directory entries and `filepath.Join` of clean elements. |
| `gollm_types.dfy` | `Gollm` | JSON values, `FunctionCall`, contents and `ChatMessage`. |
| `http_journal.dfy` | `HttpJournal` | `processStream` |
| `openai_response.dfy` | `OpenAIResponse` | The Responses API chat session, as class `ChatSession`. |
| `session.dfy` | `Sessions` | Class `Session`, whose fields are the history file and the metadata file. |
| `manager.dfy` | `SessionManager` | Class `Manager`, whose fields are the base directory's entries and the metadata files. |
| `chat_logger.dfy` | `ChatLogging` | Class `ChatLogger` and its trace. |
| `eval.dfy` | `Bench` | The benchmark's decision logic. |

Imperative code is modelled as methods with loops and invariants: `processStream`, `addContentsToHistory`, the history fold in `SendStreaming`, `SetFunctionDefinitions`, `SetChatMessages`, `ChatMessages`, `ListSessions`, the logging iterator, `evaluateTask`, `loadTasks` and `copyTaskWorkspace`. Each of these methods is proved against a reference function, and the properties are proved as lemmas about that function.

The environment is passed in as parameters:
- file contents, directory listings and disk outcomes;
- the clock and the random draw;
- the JSON, YAML and regular-expression libraries;
- the wrapped chat's replies.

## Model

| member | source | states |
|---|---|---|
| HttpJournal.Truncate | gollm/http_journal.go:157 | Go's `int(f)` rounds toward zero. For `f >= 0` the result is the largest integer not above `f`; for `f < 0` it is the smallest integer not below `f`. |
| HttpJournal.BeforeDone | gollm/http_journal.go:119-122 | The lines processed are those before the first `[DONE]` data line, and none of them is `[DONE]`. |
| HttpJournal.Summary | gollm/http_journal.go:107-195 | The summary's tool-call indices are exactly the indices of the fragments accepted before the sentinel. |
| HttpJournal.NonDataLineIgnored | gollm/http_journal.go:115-117 | Removing a line that does not start with `data:` leaves the summary unchanged, wherever the line is. |
| HttpJournal.DoneEndsStream | gollm/http_journal.go:119-122 | The summary of `a + [done] + b` is the summary of `a`, so lines after the sentinel have no effect. |
| HttpJournal.SkippedLineIgnored | gollm/http_journal.go:124-140 | A data line is ignored when its JSON is malformed, `choices` is missing or empty, `choices[0]` is not an object, or `delta` is missing. |
| HttpJournal.InertLineIgnored | gollm/http_journal.go:113-140 | A non-sentinel line that contributes no delta can be removed without changing the summary. |
| HttpJournal.AcceptedLineAppendsText | gollm/http_journal.go:143-145 | Before the sentinel, an accepted line appends its non-empty `content` to the aggregated text, after the text of the earlier lines. |
| HttpJournal.DeltasAppend | gollm/http_journal.go:112-175 | The accepted deltas of two consecutive runs of lines are the concatenation of each run's deltas. |
| HttpJournal.DeltasSnoc | gollm/http_journal.go:112-175 | One more line adds its delta at the end when accepted, and nothing otherwise. |
| HttpJournal.BeforeDoneAppend | gollm/http_journal.go:119-122 | Cutting at the sentinel distributes over concatenation. |
| HttpJournal.BeforeDoneIsPrefix | gollm/http_journal.go:112-122 | The processed prefix is exactly the lines up to the first sentinel. |
| HttpJournal.ArgumentsForAppend | gollm/http_journal.go:167-173 | One more fragment extends the argument text of its own index only. |
| HttpJournal.FirstFunctionAppend | gollm/http_journal.go:159-163 | A later fragment does not replace the stored `function` of an index already seen. |
| HttpJournal.FirstFunctionNew | gollm/http_journal.go:159-163 | The first fragment of a new index stores its own `function`. |
| HttpJournal.BuildersOfCharacterised | gollm/http_journal.go:148-175 | The builder map has one key per fragment index present. Each builder holds the `function` of the first fragment with that index and the in-order concatenation of that index's argument strings. |
| HttpJournal.NoFragmentsNoArguments | gollm/http_journal.go:167-173 | An index with no fragments has no argument text. |
| HttpJournal.FirstFunctionIsEarliest | gollm/http_journal.go:159-163 | The stored `function` comes from a fragment with that index, and no earlier fragment has that index. |
| HttpJournal.SummaryCalls | gollm/http_journal.go:148-187 | The summary's calls are exactly the indices of the fragments before the sentinel, each with its first `function` and its concatenated arguments. Fragments without a numeric index are dropped. |
| HttpJournal.FoldChunk | gollm/http_journal.go:149-173 | One `tool_calls` element updates the builder map as the reference fold over fragments does. |
| HttpJournal.FoldChunks | gollm/http_journal.go:148-174 | The loop over a `tool_calls` array folds all of its indexed fragments in order. |
| HttpJournal.ApplyDelta | gollm/http_journal.go:142-174 | An accepted delta appends its content to the text and its fragments to the builders. |
| HttpJournal.ScanLine | gollm/http_journal.go:113-175 | One scanner step either stops at the sentinel with nothing changed, or advances text and builders to the reference summary of one more line. |
| HttpJournal.Finalise | gollm/http_journal.go:179-187 | There is one event per builder index and no index twice. Each event's object `function` gets the full argument string. The order is left open, because map iteration order is unspecified. |
| HttpJournal.ProcessStream | gollm/http_journal.go:107-193 | `aggregated_text` is the reference summary's text. The significant events are one per call index of the summary, finalised, in unspecified order. |
| OpenAIResponse.ConvertToolCall | gollm/openai_response.go:318-342 | An empty name gives the missing-name error and a zero `FunctionCall`. Otherwise the call's ID is the item's `CallID`, not its `ID`, and the name is kept. Decoded arguments are kept, but empty or undecodable arguments give an empty map and no error. |
| OpenAIResponse.KeepCandidates | gollm/openai_response.go:163-180 | Only function-call and output-message items are kept, each exactly as often as in the output. |
| OpenAIResponse.KeepCandidatesAppend | gollm/openai_response.go:168-178 | The filter preserves the order of the output items. |
| OpenAIResponse.Candidates | gollm/openai_response.go:163-186 | A nil response has no candidates. Otherwise every candidate is a function-call or message item, each kept exactly as often as it occurs in the output. |
| OpenAIResponse.Parts | gollm/openai_response.go:188-218 | A function-call item gives exactly one part, carrying the converted call. A message gives one part, carrying its first content's text. Reasoning and unknown items give no parts. |
| OpenAIResponse.AsText | gollm/openai_response.go:232-234 | Returns the part's content, with ok exactly when it is non-empty. |
| OpenAIResponse.AsFunctionCalls | gollm/openai_response.go:236-238 | Always a one-element slice, with ok exactly when the content is empty. |
| OpenAIResponse.OneViewSucceeds | gollm/openai_response.go:232-238 | Exactly one of `AsText` and `AsFunctionCalls` reports ok. |
| OpenAIResponse.ToolCallPartView | gollm/openai_response.go:192-238 | A named tool call is seen through `AsFunctionCalls` as the converted call, and `AsText` fails. |
| OpenAIResponse.MessagePartView | gollm/openai_response.go:204-238 | A message with non-empty text is seen as text. With empty text it is seen as a single zero function call. |
| OpenAIResponse.FirstUnhandled | gollm/openai_response.go:288-312 | The first content that is neither a string nor an encodable `FunctionCallResult`. |
| OpenAIResponse.ContentItems | gollm/openai_response.go:289-309 | One input item per content, in order: a user message per string, and a function-call output with the same ID and the encoded result per `FunctionCallResult`. |
| OpenAIResponse.RecordedCount | gollm/openai_response.go:99-135 | The history grows by one entry per function-call, reasoning or message item. Unknown items add nothing. |
| OpenAIResponse.ReasoningRecordedNotSurfaced | gollm/openai_response.go:113-180 | A reasoning item is recorded in the history but is never a candidate. |
| OpenAIResponse.ConvertParameters | gollm/openai_response.go:241-268 | No schema gives empty parameters. A schema that does not convert gives an error naming the function. |
| OpenAIResponse.FirstUnconvertible | gollm/openai_response.go:51-58 | The first definition whose parameters do not convert. |
| OpenAIResponse.ChatSession.constructor | gollm/openai_response.go:32-41 | A new session has empty history, definitions and tools. |
| OpenAIResponse.ChatSession.SetFunctionDefinitions | gollm/openai_response.go:47-70 | Stores the definitions and sets one tool slot per definition. Slots before the first failed conversion hold that definition's tool, later slots stay zero, and the error names the failing definition. The history is unchanged. |
| OpenAIResponse.ChatSession.Send | gollm/openai_response.go:73-78 | Always fails with `ErrUnsupported`. |
| OpenAIResponse.ChatSession.Initialize | gollm/openai_response.go:147-150 | Always succeeds. |
| OpenAIResponse.ChatSession.IsRetryableError | gollm/openai_response.go:140-145 | A nil error is not retryable. Any other error is decided by the default rule. |
| OpenAIResponse.ChatSession.AddContentsToHistory | gollm/openai_response.go:286-315 | Appends the items of the contents before the first unhandled one, in order. That content's error is returned, and the items before it stay appended. |
| OpenAIResponse.ChatSession.RecordOutput | gollm/openai_response.go:99-135 | Appends the recorded form of every output item, in output order. |
| OpenAIResponse.ChatSession.SendStreaming | gollm/openai_response.go:81-137 | A rejected content returns its error, sends no request and leaves the prefix appended. Otherwise the request carries the whole history and the tools. After a successful reply the history is the request input followed by the recorded output items. After a failed reply only the contents are added: the iterator yields one response wrapping a nil reply, and the error is returned beside the iterator. |
| Sessions.SessionFilesDistinct | pkg/sessions/session.go:29-63 | `history.json` and `metadata.yaml` are two distinct files. |
| Sessions.HistoryPath | pkg/sessions/session.go:56-58 | The history file is `history.json` directly inside the session directory. |
| Sessions.MetadataPath | pkg/sessions/session.go:61-63 | The metadata file is `metadata.yaml` directly inside the session directory. |
| Sessions.AddInt64 | pkg/sessions/session.go:103 | Go's `int64 +=` wraps modulo 2^64 and is exact when the sum fits. |
| Sessions.LoadOf | pkg/sessions/session.go:66-76 | It succeeds exactly when the file holds decodable metadata. A missing file and an undecodable file are distinct errors. |
| Sessions.SavedFile | pkg/sessions/session.go:79-85 | The metadata file after `os.WriteFile`: it loads back as the saved value after a successful write, is untouched after a failed open, and is whatever partial file the failed write left otherwise. |
| Sessions.SaveError | pkg/sessions/session.go:79-85 | No error exactly when the write succeeded; an open error or a write error otherwise. |
| Sessions.UsageAccumulates | pkg/sessions/session.go:98-108 | Two usage updates equal one update by the summed counts, when no sum overflows. |
| Sessions.TokenCountWraps | pkg/sessions/session.go:103 | The token total wraps to the most negative `int64` one past the maximum. |
| Sessions.Decoded | pkg/sessions/session.go:171-178 | At most one message per record. |
| Sessions.DecodedAppend | pkg/sessions/session.go:171-178 | Reading distributes over concatenation of record runs. |
| Sessions.AppendThenRead | pkg/sessions/session.go:156-178 | In a list of whole records, a message record placed after any run of unreadable records is read back last, after the earlier messages. |
| Sessions.NothingDecodes | pkg/sessions/session.go:174-176 | A run of unreadable records yields no messages. |
| Sessions.Records | pkg/sessions/session.go:143-151 | One encoded record per message, in order. |
| Sessions.RecordsRoundTrip | pkg/sessions/session.go:143-178 | Reading the records written for a list of messages gives back that list. |
| Sessions.PersistedSnoc | pkg/sessions/session.go:111-130 | Persisting one more message is one more append. |
| Sessions.PersistedInOrder | pkg/sessions/session.go:111-130 | On a healthy disk, a run of appends writes the records of the messages that encode, in order, after the old history. A torn tail absorbs the first of them. When the old history does not end torn, it is followed by exactly those records, and by all the records when every message encodes. The file is created when absent. |
| Sessions.Encodables | pkg/sessions/session.go:121-124 | The messages kept by a run of appends: each of them encodes, and all of them are kept when all encode. |
| Sessions.HealthyAppend | pkg/sessions/session.go:111-130 | On a healthy disk, one append writes the message's record at the end of the file when it encodes, and nothing otherwise. |
| Sessions.Glued | pkg/sessions/session.go:115-128 | Writing a record at the end of the file (`O_APPEND`) adds it as a record of its own unless the file ends torn. A torn tail instead absorbs it into one malformed value, terminated exactly when the record is. |
| Sessions.AppendedThenRead | pkg/sessions/session.go:111-178 | An appended message is read back last, after the earlier messages, unless the file ended in a torn record, in which case nothing new is read. |
| Sessions.JoinedTorn | pkg/sessions/session.go:111-130 | Once a whole message record has been appended, the file no longer ends torn. |
| Sessions.JoinedRead | pkg/sessions/session.go:111-178 | A run of appended messages is read back in order after the earlier messages; a torn tail loses the first of them. |
| Sessions.JoinedUntorn | pkg/sessions/session.go:111-130 | Without a torn tail, appended records simply follow the existing ones. |
| Sessions.TornAppendSwallowsNext | pkg/sessions/session.go:111-178 | The sequence of a healthy append, a torn write and a healthy append leaves one message record and one malformed value, and only the first message is read back. |
| Sessions.Leftover | pkg/sessions/session.go:126-128 | A failing write leaves at most one record behind, and that one is torn: malformed, opening with `{`, and without its newline. |
| Sessions.EncodedRunThenStuck | pkg/sessions/session.go:171-178 | A stuck decoder reached over well-formed records followed by a final torn record never returns. |
| Sessions.TornRewriteHangs | pkg/sessions/session.go:146-178 | After a rewrite whose write failed part-way through a message, leaving a torn record last, the as-written reader never returns. |
| Sessions.WrittenCount | pkg/sessions/session.go:143-151 | The number of messages written before the first encoding or write failure. |
| Sessions.StuckDecoderNeverReturns | pkg/sessions/session.go:172-176 | Once a decode error is recorded on a record that does not start with `}` or `]`, the loop never returns, whatever the fuel. |
| Sessions.TornRecordHangs | pkg/sessions/session.go:172-176 | A message followed by a torn record makes the as-written loop spin forever. |
| Sessions.CloserRecordTruncates | pkg/sessions/session.go:172-176 | A malformed record starting with `}` ends the as-written read early and drops the later messages, where skipping would return both. |
| Sessions.ReadAsWrittenAgrees | pkg/sessions/session.go:171-178 | Without syntactically malformed records, the as-written loop returns exactly `Decoded`. |
| Sessions.More | pkg/sessions/session.go:172 | `More()` is true before any record that is not syntactically malformed, whatever error the decoder holds, false at the end and before a malformed record that opens with a closing bracket. |
| Sessions.DecodeStep | pkg/sessions/session.go:174-176 | A recorded syntax error is returned again without moving or yielding. A malformed record records the error and stays put. A yielded message moves past its record. The position stays put exactly when an error is or becomes recorded. |
| Sessions.ReadAsWritten | pkg/sessions/session.go:171-180 | When `More()` is false the loop returns no messages. A returning run yields at most one message per remaining record. |
| Sessions.Session.constructor | pkg/sessions/session.go:45-50 | A session over the given files. |
| Sessions.Session.LoadMetadata | pkg/sessions/session.go:66-76 | Loads what the metadata file holds. |
| Sessions.Session.SaveMetadata | pkg/sessions/session.go:79-85 | A successful write replaces the metadata, which then loads back as the saved value. A failed open leaves the file and reports an open error. A write that fails after the truncating open leaves the partial file the write produced and reports a write error. |
| Sessions.Session.UpdateLastAccessed | pkg/sessions/session.go:88-95 | Changes only `LastAccessed`, saved as `SaveMetadata` does, with its outcome. A load error is returned and nothing is saved. |
| Sessions.Session.UpdateUsage | pkg/sessions/session.go:98-108 | Adds the tokens and the message count with `int64` wrap and sets `LastAccessed`, saved as `SaveMetadata` does, with its outcome. A load error is returned and nothing is saved. |
| Sessions.Session.AddChatMessage | pkg/sessions/session.go:111-130 | The record's bytes are appended at the end of the file. When the file does not end torn, that is one more record with the existing ones unchanged; after a torn tail, the bytes run into the torn value. The file is created if missing. An open or encode failure is returned and appends nothing. A write failure is returned and may leave a torn record at the end. |
| Sessions.Session.SetChatMessages | pkg/sessions/session.go:133-153 | Truncates the file and writes the messages in order. After an encoding failure, only the prefix written before it remains. After a write failure, that prefix remains, possibly followed by one torn record. |
| Sessions.Session.ChatMessages | pkg/sessions/session.go:156-181 | Returns empty when the file is absent or cannot be opened. Otherwise it returns the decodable records in file order, skipping the rest. This is the intended semantics; see Findings. |
| Sessions.Session.ClearChatMessages | pkg/sessions/session.go:184-194 | Leaves an empty history, created if absent. |
| SessionManager.Pad | pkg/sessions/manager.go:55-56 | `%0Nd` gives exactly N digits. |
| SessionManager.PadValue | pkg/sessions/manager.go:55-56 | Zero-padding loses nothing: the digits read back as the number. |
| SessionManager.PadSplit | pkg/sessions/manager.go:55-56 | Padding a two-field number is padding each field. |
| SessionManager.PadOrder | pkg/sessions/manager.go:97-100 | Zero-padded numbers of one width compare as strings as they do as numbers. |
| SessionManager.SessionIdFormat | pkg/sessions/manager.go:55-56 | A session ID has 13 characters: `YYYYMMDD`, `-`, then four digits. Year, month, day and the draw read back from their fields. |
| SessionManager.DayPrefix | pkg/sessions/manager.go:56 | The `20060102` layout writes the day number in eight digits. |
| SessionManager.SessionIdOrder | pkg/sessions/manager.go:53-100 | A later day, or a larger draw on the same day, gives a string-greater ID. Descending ID order is therefore by creation day, then by the random draw, and not by creation time within a day. |
| SessionManager.Listed | pkg/sessions/manager.go:86-95 | A session is listed exactly when it is made from a directory entry, with ID the entry's name and path `BasePath/name`. Non-directories are dropped. |
| SessionManager.ListedCount | pkg/sessions/manager.go:86-95 | There are as many listed sessions as directory entries: one per directory. |
| SessionManager.ListedDistinct | pkg/sessions/manager.go:86-95 | When entry names are distinct, as in one directory, no session is listed twice. |
| SessionManager.InsertDesc | pkg/sessions/manager.go:97-100 | Inserting into a descending list keeps it descending and adds exactly that session. |
| SessionManager.ListedEmpty | pkg/sessions/manager.go:86-95 | The list is empty exactly when there is no directory entry. |
| SessionManager.FindById | pkg/sessions/manager.go:123-128 | Finds a session with that ID exactly when one exists. |
| SessionManager.WithoutEntry | pkg/sessions/manager.go:138 | Removing a directory removes exactly the entries of that name. |
| SessionManager.AddedDir | pkg/sessions/manager.go:59 | `MkdirAll` leaves a directory of that name. |
| SessionManager.Manager.constructor | pkg/sessions/manager.go:31-34 | A manager over the given base directory. |
| SessionManager.Manager.ListSessions | pkg/sessions/manager.go:80-103 | A read failure is returned. Otherwise the result is sorted by descending ID and is a permutation of the listed directories. |
| SessionManager.Manager.ListedSessions | pkg/sessions/manager.go:86-100 | A session is in the list exactly when a directory entry of that name exists. |
| SessionManager.Manager.GetLatestSession | pkg/sessions/manager.go:106-115 | No sessions gives none and no error. Otherwise it gives a listed session whose ID no other listed ID exceeds. |
| SessionManager.Manager.FindSessionByID | pkg/sessions/manager.go:118-129 | Succeeds exactly when a directory of that name exists, and returns that session. Otherwise it returns a not-found error naming the ID. |
| SessionManager.Manager.DeleteSession | pkg/sessions/manager.go:132-139 | A missing session or an unreadable directory is an error and removes nothing. Otherwise the session's directory and files are removed. A failed `RemoveAll` keeps the directory entry but may already have removed the metadata file, and returns the removal error. |
| SessionManager.Manager.GetSessionInfo | pkg/sessions/manager.go:142-153 | Propagates not-found and metadata-load failures, and otherwise returns the session and its metadata. |
| SessionManager.Manager.NewSession | pkg/sessions/manager.go:53-77 | The new directory is named by the date-and-draw ID. `CreatedAt` and `LastAccessed` are overwritten and the metadata saved as `SaveMetadata` does. A mkdir failure changes nothing. A failed open of the metadata file leaves the metadata files alone, a failed write leaves its partial file, and both return the save error with the new directory left behind. |
| ChatLogging.WritesAppend | pkg/agent/chat_logger.go:43-52 | The records written by two trace segments are concatenated. |
| ChatLogging.YieldsAppend | pkg/agent/chat_logger.go:90-103 | The items yielded by two trace segments are concatenated. |
| ChatLogging.ItemEventsEffect | pkg/agent/chat_logger.go:91-101 | Each item is yielded once. A response writes one model record and an error writes none. |
| ChatLogging.StreamYieldsItems | pkg/agent/chat_logger.go:90-103 | The wrapped iterator yields exactly the underlying items, in order. |
| ChatLogging.StreamWritesResponses | pkg/agent/chat_logger.go:92-101 | The records written are the model records of the responses, in order. |
| ChatLogging.LoggedBeforeYielded | pkg/agent/chat_logger.go:96-101 | A response's record is written immediately before the response is yielded. |
| ChatLogging.PersistStep | pkg/agent/chat_logger.go:92-101 | One more item appends one record for a response and nothing for an error. |
| ChatLogging.PersistedMatchesDelivered | pkg/agent/chat_logger.go:90-103 | On a healthy store, the file is written exactly the records of the delivered responses that encode, in order. A response that does not encode is skipped silently, because `writeRecord` drops the error. When every response encodes and the file does not end torn, the history gains all their records. |
| ChatLogging.ModelRecordsEncodable | pkg/agent/chat_logger.go:43-52 | The model records all encode exactly when the delivered responses all do; there is at most one record per response. |
| ChatLogging.ChatLogger.constructor | pkg/agent/chat_logger.go:36-41 | A logger over the given store, which may be nil. |
| ChatLogging.ChatLogger.WriteRecord | pkg/agent/chat_logger.go:43-52 | A nil store writes nothing. Otherwise the store appends the record. Its error is swallowed. |
| ChatLogging.ChatLogger.Send | pkg/agent/chat_logger.go:55-74 | Writes the user record, then calls the wrapped chat. A response is returned unchanged after one model record is written. On error, no model record is written and the error is returned. |
| ChatLogging.ChatLogger.SendStreaming | pkg/agent/chat_logger.go:77-87 | The user record is written even when the wrapped call then fails. That error is returned with no iterator. |
| ChatLogging.ChatLogger.Iterate | pkg/agent/chat_logger.go:90-103 | The consumer receives the underlying items up to and including the one where it stops. The store receives the model records of the delivered responses, each before its response. |
| ChatLogging.ChatLogger.Relay | pkg/agent/chat_logger.go:91-101 | One callback: a response is written, then passed on. An error is passed on unwritten. |
| ChatLogging.ChatLogger.SetFunctionDefinitions | pkg/agent/chat_logger.go:107-109 | Forwards the definitions and the result unchanged. |
| ChatLogging.ChatLogger.IsRetryableError | pkg/agent/chat_logger.go:112-114 | Forwards the error and the verdict unchanged. |
| ChatLogging.ChatLogger.Initialize | pkg/agent/chat_logger.go:117-119 | Forwards the messages and the result unchanged. |
| Bench.GetLastNLines | k8s-bench/eval.go:282-288 | Truncated exactly when the string has more than `n` lines. Otherwise the string comes back unchanged. |
| Bench.LastLinesAreSuffix | k8s-bench/eval.go:282-288 | A truncated tail is the suffix after a line break and holds exactly the last `n` lines. For `n = 0` it is empty. |
| Bench.MaxTaskDuration | k8s-bench/eval.go:296-299 | The cap is `MaxAgentDuration`, or 5 minutes when that is not positive. |
| Bench.EffectiveTimeout | k8s-bench/eval.go:301-313 | No task timeout gives the cap. An unparsable one fails with the parser's error. A parsed one in `(0, cap]` is kept, and a parsed one at most 0 or above the cap is replaced by the cap. Every result lies in `(0, cap]`. |
| Bench.AfterLineBreak | k8s-bench/eval.go:384-388 | A suffix of its input. It is empty when there is no newline. Otherwise it is everything after the first newline. |
| Bench.LastCommandOutput | k8s-bench/eval.go:376-389 | A suffix of the output. It is the whole output when `Running:` never appears. |
| Bench.LastCommandOutputAfterMarker | k8s-bench/eval.go:376-389 | When a command ran, the checked output contains no `Running:`. |
| Bench.LastCommandOutputUnterminated | k8s-bench/eval.go:382-389 | When the last `Running:` line has no newline, the checked output is empty. |
| Bench.LastCommandOutputAfterLine | k8s-bench/eval.go:382-387 | Otherwise the checked output starts right after the first newline following the last `Running:`. |
| Bench.FirstLineBreak | k8s-bench/eval.go:383-386 | The text after `strings.Index`'s newline follows the first line break. |
| Bench.NoFailuresIffAllMet | k8s-bench/eval.go:391-406 | There are no expectation failures exactly when every non-empty pattern compiles and matches. Empty patterns are ignored. |
| Bench.FailuresNamePatterns | k8s-bench/eval.go:391-406 | At most one failure per expectation. Each names a non-empty pattern of the task. |
| Bench.ExpectationFailures | k8s-bench/eval.go:391-406 | At most one failure per expectation. |
| Bench.CheckExpectations | k8s-bench/eval.go:391-406 | The loop appends an invalid-regex failure or a no-match failure per failing expectation, in order, and continues. |
| Bench.Verdict | k8s-bench/eval.go:446-452 | `success` exactly when the verifier succeeded or at least one expectation exists and none failed. Otherwise `fail`, with the expectation failures appended. |
| Bench.SuccessKeepsVerifierFailure | k8s-bench/eval.go:413-452 | A task whose verifier failed but whose expectations are all met is a success that still lists the verifier failure. |
| Bench.VerifierFailureMessage | k8s-bench/eval.go:424-442 | The message holds the last 20 log lines. It gets the truncation note with the log path exactly when the log was truncated. |
| Bench.LogPath | k8s-bench/eval.go:427-438 | The log path is `outputDir/task/shim_enabled-provider-model`, or `shim_disabled-…`, for a non-empty output directory and task. |
| Bench.EvaluateTask | k8s-bench/eval.go:290-455 | The checks come in the source's order: timeout parse, absolute path, setup, agent deadline or crash, then expectations, verifier and verdict. Each early exit gives its own result and error. After the agent has run, a prompt the runner could not resolve heads the failures on every path. |
| Bench.JudgeRun | k8s-bench/eval.go:373-454 | After a finished agent run, the result is the verdict over the expectation failures on the last command's output and the verifier outcome, with an empty error. The failures are the unresolved-prompt failure, if any, then the verifier's. |
| Bench.PromptFailures | k8s-bench/eval.go:589-598 | The runner adds a failure exactly when a script prompt cannot be resolved, and adds at most one. |
| Bench.ExpectationStep | k8s-bench/eval.go:373-411 | No expectations give no failures. Otherwise the failures are those of the expectations on the output after the last `Running:` line. |
| Bench.VerifierStep | k8s-bench/eval.go:413-444 | The verifier succeeded exactly when one is named and its run returned no error. A failed run adds exactly one verifier failure with the message built from the log. |
| Bench.VerifierFailures | k8s-bench/eval.go:413-444 | At most one failure. There is a verifier failure exactly when a verifier is named and its run failed. |
| Bench.FirstFailedRead | k8s-bench/eval.go:257-267 | The first selected task whose file cannot be read or parsed. |
| Bench.LoadedTasks | k8s-bench/eval.go:247-276 | A task is loaded exactly when its entry is a directory, passes the filter and is not disabled. It is stored under its name with the task read from its file. |
| Bench.Loaded | k8s-bench/eval.go:247-276 | No loaded task is disabled. |
| Bench.LoadTasks | k8s-bench/eval.go:230-279 | An invalid pattern or an unreadable directory is an error. A task file that fails to read or parse aborts. Otherwise the result is the loaded task map. |
| Bench.CopyActionFor | k8s-bench/eval.go:646-693 | The root and the base names `verify.sh`, `cleanup.sh` and `task.yaml` are skipped. A directory is created with its mode. A regular file is written with mode `| 0200`. Other kinds are skipped. |
| Bench.CopyPlanSafe | k8s-bench/eval.go:656-688 | No copied entry is the root or an excluded file, and every copied file has the user-write bit. |
| Bench.CopyPlan | k8s-bench/eval.go:644-695 | At most one action per walked entry. |
| Bench.CopyTaskWorkspace | k8s-bench/eval.go:644-695 | The walk performs exactly the planned actions, in walk order. |
| Strings.TrimSpace | gollm/http_journal.go:119 | The payload is no longer than the line and neither starts nor ends with white space. |
| Strings.TrimSpaceInfix | gollm/http_journal.go:119 | The payload is an infix of the line with only white space before and after it, so together with TrimSpace's contract it is the longest such infix. |
| Strings.Index | k8s-bench/eval.go:383 | The first occurrence, or -1 exactly when there is none. |
| Strings.LastIndex | k8s-bench/eval.go:378 | The last occurrence, or -1 exactly when there is none. |
| Strings.Split | k8s-bench/eval.go:283 | Splitting on a separator gives at least one part, and no part contains the separator. |
| Strings.JoinSplit | k8s-bench/eval.go:283-285 | Joining the parts of a split with the separator gives the string back. |
| Strings.SplitJoin | k8s-bench/eval.go:283-285 | Splitting a join of separator-free parts gives the parts back. |
| Strings.LessTotal | pkg/sessions/manager.go:97-100 | Byte-wise string order is total. |
| Strings.LessTransitive | pkg/sessions/manager.go:97-100 | Byte-wise string order is transitive. |
| Strings.NoneBeforeIndex | k8s-bench/eval.go:383 | Nothing before the first occurrence of a pattern contains it. |

## Left out

- I/O is passed in as parameters: file and directory contents, open and write outcomes, `os.ReadDir`, `MkdirAll`, `RemoveAll`, `filepath.Abs`, and the outcomes of setup, agent and verifier. Process execution, the cleanup script, the log writer and klog output are not modelled.
- The clock and `rand.Intn(10000)` are parameters of `SessionManager.Manager.NewSession`. Times are plain integers.
- JSON and YAML encoding and decoding, `convertSchemaForOpenAI`, `time.ParseDuration` and `regexp` are function parameters or abstract record shapes. Their own behaviour is not modelled.
- `sync.Mutex` in the session store is left out; the model is single-threaded.
- `TotalCost float64` and `Metadata.String` are left out, because they involve floating point and formatting.
- HttpJournal.ProcessStream: `bufio.Scanner`'s line splitting and its 64 KiB line limit are not modelled. The body is given as its sequence of lines.
- HttpJournal.Finalise: the events' order follows Go map iteration. The model fixes no order and only proves one event per index.
- OpenAIResponse.ChatSession.SendStreaming: the call to `Responses.New` is the `reply` parameter. `Parts`, and the history fold, index `Content[0]`, so the model requires messages to have content rather than modelling that panic.
- OpenAIResponse.Candidates: each candidate holds its own output item, which is what storing `&output` (gollm/openai_response.go:168-172) gives under the per-iteration loop variables of Go 1.22 and later. Under earlier Go versions every candidate would alias the last output item; that is not modelled.
- OpenAIResponse.ChatSession.Send: the empty response value it returns next to `ErrUnsupported` is not modelled; only the error is.
- Sessions.Session.AddChatMessage: a failing write leaves either nothing or one torn record. A failing write that leaves the whole JSON text without its newline is not modelled, nor is what a decoder makes of a torn prefix glued to the next record beyond treating it as one malformed value.
- Sessions.RecordsRoundTrip: the round trip holds for the abstract record codec only. `json.Marshal` of a model record writes `{}` for an `openAIResponseChatResponse`, whose only field is unexported, so such a response does not decode back to the same value.
- Sessions.Session.ChatMessages: modelled with the intended skip-malformed semantics; the as-written decoder is `Sessions.ReadAsWritten` (see Findings).
- SessionManager.Manager.ListSessions: `sort.Slice` is modelled by insertion into a sorted sequence. The model proves sortedness and permutation, but not the in-place order of equal IDs, which cannot occur because names in a directory are distinct.
- SessionManager.Manager.NewSession: requires a valid calendar date and a draw below 10000. `time.Now` and `rand.Intn(10000)` guarantee both. A failed metadata save leaves the new directory behind, as in the source.
- HttpJournal.Truncate: the tool-call index is an exact real. The rounding of large indices to `float64` and Go's implementation-defined `int()` of out-of-range floats are not modelled.
- ChatLogging.ModelRecord: the `Timestamp: time.Now()` that every record carries is left out; records are compared without it. The same holds for the user record.
- Strings: strings are sequences of Unicode scalar values. Go strings holding invalid UTF-8, such as raw agent output or SSE bodies, cannot be represented.
- FileSystem.JoinPath: `filepath.Clean` of unclean elements (`..`, doubled separators) is not modelled.
- Gollm.Reply: whether `json.Marshal` succeeds on a response is a flag of the reply. The provider types that make it fail are not modelled.
- ChatLogging.ChatLogger.Iterate: the consumer's early stop is an index. Go's range-over-func protocol and panics on yield after stop are not modelled.
- Bench.EvaluateTask: failure messages other than the verifier's are structured values (`TimedOut`, `InvalidRegex`, `NoMatch`, `PromptUnresolved`) rather than formatted strings. The `LLMConfig` copy inside `TaskResult` is left out. The runner's prompt goroutine is taken to have finished before the result is read; the race when the agent crashes or times out is not modelled.
- Bench.LoadTasks: reading and parsing a task file are one parameter, so their two wrapped error messages are not distinguished.
- Bench.CopyTaskWorkspace: errors from `WalkDir`, `Info`, `ReadFile` and `WriteFile` are not modelled. Paths are lists of elements relative to the task directory. A directory whose base name is excluded is not created but its walk goes on, as `return nil` is not `fs.SkipDir`. In the source, writing the files under it then fails, and that error is among those not modelled.
- `runEvaluation`, `runAgent`, `runSetup`, `runCleanup`, `runCommand`, `writeToYAMLFile` and `printResults` are process and file I/O and are not part of this model. So are the journal's `RoundTrip` and `withJournaling`.

## Findings

| source | as written | input that shows it | evidently intended | confidence | as-written member | corrected member |
|---|---|---|---|---|---|---|
| pkg/sessions/session.go:171-178 | `ChatMessages` loops on `scanner.More()` and skips a record whose `Decode` fails. A syntax error in `json.Decoder` is sticky, though, and `Decode` does not advance past the bad input. `More()` peeks at the next byte without looking at the stored error. | A history whose last line is torn, `{"role":"user"}\n{"ro`. `More()` stays true, `Decode` keeps failing, and the loop never ends. A malformed line starting with `}` instead makes `More()` false, so every later message is dropped. | Skip malformed records and return every decodable message in file order. | not executed | Sessions.ReadAsWritten, Sessions.TornRecordHangs, Sessions.TornRewriteHangs, Sessions.CloserRecordTruncates, Sessions.StuckDecoderNeverReturns | Sessions.Session.ChatMessages, Sessions.Decoded, Sessions.AppendThenRead, Sessions.RecordsRoundTrip |

Where the specification and the code differ, the model follows the code.
