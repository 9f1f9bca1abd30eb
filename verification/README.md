# Verification of the ChatBI execution core

This project models the parts of the ChatBI repository whose behaviour is hardest to see from one
function, and proves properties of the model with Dafny 4.11. `dafny verify dfyconfig.toml` checks
all of it.

**The streaming report pipeline.** A language model's report arrives as pieces of JSON text.
`ReportStream` holds the character-at-a-time decoder as a class that refines the transition function
of `DecoderMachine`; `DecoderComplete`, `DecoderSound` and `DecoderLanguage` relate that function to
concrete syntax trees of RFC 8259 (`JsonSyntax`, `JsonText`) and give the exact language, the round
trip and chunk independence, which `ReportDeltas` carries over to the deltas of the feeds. `JsonPrinting` is
a printer of JSON that shares no table of characters with them, and the decoder reads back what it prints.
`ReportRun` drives the decoder with one retry and a reset and publishes its deltas to the event channel
(`EventChannel`, with the draft's running counters in `DraftLedger`).
`EventStreamText`, `EventStreamParser` and `EventStreamPrinting` are the wire format of section 9.2 of
the WHATWG HTML standard, `EventEncoding` and `EventDecoding` the JSON form of an event, and `Replica`
and `EventLog` the browser's state over a channel that loses, repeats and reorders.
`ReportDraft`, `ReportCandidate`, `DraftSize`, `ReportDelivery`, `ReportRoom`, `ChannelDelivery`, `WireDelivery`
and `ReportReferences` join the two ends: what the browser shows is what the document says and what is stored.

**The history and execution store.** `HistoryStore` is a class with three tables and the runtime epoch;
each method is one transaction and refines a function of `HistoryTransactions`. `HistoryModel` and
`HistoryInvariant` state and keep the invariant of the tables, `HistoryEffects` tells what each transaction
accepts and writes by the rows alone, and `HistoryRuns` proves what holds along every run of any
transactions, with restarts in between.

**The analysis run.** `PlanValidation` (memoised depth-first search over a dependency graph,
`AnalysisPlan`), `TaskScheduler` (several passes over the pending tasks), `AnalysisRun` (the checkpointed
task loop behind the register of runs) and `AnalysisSeries` (any series of calls, cancellations, deletions and
sweeps on one run).

**Arithmetic and a graph walk.** `ProductTable` and `Attribution` (exact attribution of a change),
`NumberFormat` (decimal display in the browser), `AuditDetails` (the iterative, cycle-aware walk over a
heap of dictionaries and lists).

## What the code does not do

Five properties that the code's own structure suggests are false of it. In each case the code is modelled
as it is, an input on which it fails is given, and the exact condition is proved.

- A browser that reconnects after the channel is gone gets the persisted outcome as a snapshot with
  sequence 0 and generation 0. It is dropped, and nothing is asked for again, unless the browser is at
  generation 0 and has seen an event (`EventLog.PersistedOutcome`). `EventLog.OutcomeLost` is such a log and
  such a browser: after one retry it shows a running execution for good.
- `finish_attempt` does not check that the execution belongs to the token's turn. A commit keeps the
  invariant of the tables exactly when it does (`HistoryTransactions.FinishExact`), and
  `HistoryTransactions.FinishStray` is a state in which it does not.
- `finish_execution_stopped` takes any status. A commit keeps the invariant exactly when the status is failed,
  cancelled or timed out (`HistoryTransactions.FinishStoppedExact`); `HistoryTransactions.FinishStoppedStray`
  is a state and a status that break it.
- A failure that is stored before a plan exists is never cleared: a call in which everything goes well
  succeeds exactly when there is none (`AnalysisRun.BusinessAnalysisRun.Analyze`). One failed extraction stores
  it, and `AnalysisSeries.LostRun` is the call after that.
- Both periods of an attribution can pass their own check while the check of the total change fails
  (`Attribution.DriftHappens`); the refusal happens exactly then.

Four more things follow the code and may surprise. A channel call whose event does not fit the shared buffer
raises after the state has changed, so that the state is ahead of the log (`Torn` in `EventChannel`). A draft
is refused for its place exactly when a list item without text comes before one with text
(`ReportDraft.DocumentDrawn`); such a report is not one that the candidate check accepts
(`ReportCandidate.ReportableDrawn`). A snapshot carries no public error, so that a client that misses
the last event and recovers by a snapshot shows none (`EventLog.CatchUp`). A client that has seen the end asks for
a snapshot once more when an older one of the same generation arrives (`EventLog.AsksExactly`).

## Model

| member | source | states |
|---|---|---|
| JsonText.SurrogatePairs | src/business_analysis/report_stream.py:232-257 | Section 2.2 of RFC 2781: surrogate pairs and supplementary code points are in one-to-one correspondence |
| JsonText.ValidJsonNumber | src/business_analysis/report_stream.py:365-399 | The index scan accepts exactly the numbers of section 6 of RFC 8259, whatever `str.isdigit` says of non-ASCII digits |
| JsonText.CutIsGreedy | src/business_analysis/report_stream.py:365-399 | A number has one way to be cut into integer, fraction and exponent: the greedy one |
| JsonSyntax.DecodedScalar | src/business_analysis/report_stream.py:216-285 | Every character that an escape, a surrogate pair or a plain character stands for is a Unicode scalar value |
| JsonSyntax.FieldNamed | src/business_analysis/report_stream.py:177-214 | A root name selects a draft field exactly when it is that field's name |
| DecoderRoles.RunTyped | src/business_analysis/report_stream.py:177-312 | Whatever the input, text fields are published without an index and list fields with one |
| DecoderComplete.RoundTrip | src/business_analysis/report_stream.py:72-362 | Every well-formed document, in any white space and spelling, is accepted within the cap, and exactly the text of its six root fields is published |
| DecoderSound.Sim | src/business_analysis/report_stream.py:115-362 | Each decoder step on the state of a partial derivation is one more character of a derivation, or a rejection that is not an internal error |
| DecoderSound.Derivation | src/business_analysis/report_stream.py:72-104 | Whatever has been read without a rejection is a prefix of a document, and the decoder's state is the one of its derivation |
| DecoderLanguage.Sound | src/business_analysis/report_stream.py:72-113 | An accepted text has a derivation as white space, one object with distinct names throughout, white space, within the cap |
| DecoderLanguage.Language | src/business_analysis/report_stream.py:72-399 | Exact language: accepted if and only if such a derivation exists |
| DecoderLanguage.Unambiguous | src/business_analysis/report_stream.py:72-362 | All derivations of one text publish the same draft |
| DecoderLanguage.StateInvalidUnreachable | src/business_analysis/report_stream.py:115-362 | The raises for impossible states and the accesses to an empty stack are unreachable from the initial state |
| DecoderLanguage.Publishing | src/business_analysis/report_stream.py:287-312 | Publishing only appends, stays within the cap, and publishes Unicode scalar values only |
| DecoderLanguage.PublishedText | src/business_analysis/report_stream.py:177-312 | Each root field, or list place, gets exactly the string found there in the document; nested values publish nothing (for the characters themselves see `JsonPrinting.PrintedReport`) |
| DecoderLanguage.OversizedDraft | src/business_analysis/report_stream.py:287-312 | A document whose draft exceeds the cap is rejected with the cap's own error |
| DecoderLanguage.ChunkIndependence | src/business_analysis/report_stream.py:72-104 | Any cutting of a text into feeds gives the same state or the same failure; for the deltas see `ReportDeltas.CutDeltas` |
| JsonPrinting.CharRead | src/business_analysis/report_stream.py:216-285 | What a printer written from section 7 of RFC 8259 by character writes for a character (itself, a letter after a backslash, or its code units digit by digit) derives that character |
| JsonPrinting.CharWritten | src/business_analysis/report_stream.py:216-285 | Everything that the grammar derives inside a string is what the printer writes for the decoded character in some spelling |
| JsonPrinting.NumberRead | src/business_analysis/report_stream.py:365-399 | Every printed numeral is a number |
| JsonPrinting.NumberWritten | src/business_analysis/report_stream.py:365-399 | Every number is a printed numeral |
| JsonPrinting.BlankExact | src/business_analysis/report_stream.py:115-131 | White space is exactly what the printer may write between two tokens |
| JsonPrinting.CharSizeExact | src/query_api/execution_events.py:436-462 | The size that the server counts for a character is that of its shortest spelling |
| JsonPrinting.PrintedReport | src/business_analysis/report_stream.py:72-362 | A report printed in any spelling and white space is accepted when its draft fits the cap, each place of the draft gets exactly the string printed there, and a larger one is rejected as too large |
| JsonPrinting.PrintedText | src/business_analysis/report_stream.py:216-327 | One text field: any text in any spelling is published exactly, as far as it fits the cap |
| ReportStream.IncrementalReportJSONDecoder.constructor | src/business_analysis/report_stream.py:58-70 | A new decoder is in the initial state |
| ReportStream.IncrementalReportJSONDecoder.Feed | src/business_analysis/report_stream.py:72-104 | A feed runs the transition function over its text; its deltas merge exactly the characters it published, with contiguous offsets; after `finish` it is refused |
| ReportStream.IncrementalReportJSONDecoder.Finish | src/business_analysis/report_stream.py:106-113 | The end is accepted exactly when the document is complete, and only once |
| ReportStream.IncrementalReportJSONDecoder.Consume | src/business_analysis/report_stream.py:72-104 | One character: either it is taken, or a primitive is ended and the same character remains to be read, at most once |
| ReportStream.IncrementalReportJSONDecoder.ConsumeJsonChar | src/business_analysis/report_stream.py:115-131 | Outside strings and primitives a character does what the machine does |
| ReportStream.IncrementalReportJSONDecoder.ConsumeObjectChar | src/business_analysis/report_stream.py:133-158 | Object frames: names, colons, values, commas and the closing brace, with duplicate names rejected |
| ReportStream.IncrementalReportJSONDecoder.ConsumeArrayChar | src/business_analysis/report_stream.py:160-175 | Array frames: items, commas and the closing bracket |
| ReportStream.IncrementalReportJSONDecoder.StartValue | src/business_analysis/report_stream.py:177-214 | A value starts with the role that its place gives it |
| ReportStream.IncrementalReportJSONDecoder.ConsumeStringChar | src/business_analysis/report_stream.py:216-285 | Strings: escapes, four-digit escapes and surrogate halves, in every sub-state |
| ReportStream.IncrementalReportJSONDecoder.FinishUnicode | src/business_analysis/report_stream.py:232-257 | A four-digit escape: a high half waits, a low half completes it, a lone half is rejected |
| ReportStream.IncrementalReportJSONDecoder.EmitStringChar | src/business_analysis/report_stream.py:287-312 | A decoded character is published for its draft place, with the byte count kept exact, or rejected by the cap |
| ReportStream.IncrementalReportJSONDecoder.CloseString | src/business_analysis/report_stream.py:314-327 | The end of a string completes a value or stores a new name |
| ReportStream.IncrementalReportJSONDecoder.FinishPrimitive | src/business_analysis/report_stream.py:329-334 | A primitive is one of the literals or a number, or it is rejected |
| ReportStream.IncrementalReportJSONDecoder.CompleteValue | src/business_analysis/report_stream.py:336-347 | A completed value moves its frame on |
| ReportStream.IncrementalReportJSONDecoder.CloseContainer | src/business_analysis/report_stream.py:349-362 | A closed container completes a value of its parent, or the root |
| ReportDeltas.FlatDeltas | src/business_analysis/report_stream.py:287-312 | The deltas of a feed spell exactly the characters that it publishes, in order, each at the length that its slot had before it; none is empty and no two neighbours could be one |
| ReportDeltas.MergeKeeps | src/business_analysis/report_stream.py:287-312 | Merging adjacent deltas keeps every character at its place and leaves nothing to be merged |
| ReportDeltas.MergeExact | src/business_analysis/report_stream.py:287-312 | What merging gives depends on the characters and their places only |
| ReportDeltas.CutDeltas | src/business_analysis/report_stream.py:72-104 | For any cutting of a text the deltas of all feeds spell what the whole text publishes, and merged across the cuts they are the deltas of the whole text in one feed |
| ReportDeltas.SameDeltas | src/business_analysis/report_stream.py:72-104 | Two cuttings of one text fail alike, or their merged deltas are the same |
| Replica.ReduceKeeps | frontend/src/execution.ts:126-217 | One reduction of any decoded event keeps the replica's invariant, moves only forward except across a newer generation, and changes nothing when it asks for a snapshot |
| Replica.ReplicaInvariants | frontend/src/execution.ts:126-217 | The same for every sequence of decoded events, whatever the server sent |
| ExecutionEvents.StatusOrder | frontend/src/execution.ts:22-24 | A status may follow another exactly from accepted to running to stopping to any end |
| ExecutionEvents.StageOrder | frontend/src/execution.ts:19-21 | The stages of a query and those of an analysis come in their order, saving last |
| EventEncoding.EncodingExact | frontend/src/execution.ts:74-124 | The browser accepts a JSON value exactly when it is the server's encoding of a checked event of this execution with safe counts, and reads that event back |
| EventEncoding.SnapshotRead | frontend/src/execution.ts:87-98 | An accepted snapshot payload is the encoding of a checked snapshot |
| EventEncoding.ProgressRead | frontend/src/execution.ts:99-108 | An accepted progress payload is the encoding of a checked progress event |
| EventEncoding.DraftBoth | frontend/src/execution.ts:51-72 | `reportDraft` accepts exactly the records of typed drafts of scalar text within the cap |
| WireDelivery.LogArrives | src/query_api/execution_events.py:314-382 | Every event of a legal log, and the snapshot at every point of it, reaches the client unchanged exactly when its counts are safe integers |
| WireDelivery.MessageArrives | src/query_api/execution_api.py:169-198 | So do the persisted outcome and the loss of access |
| WireDelivery.StateChecked | src/query_api/execution_events.py:78-123 | The payloads of status, stage, count, reset and final events pass the browser's checks |
| WireDelivery.DeltaChecked | src/query_api/execution_events.py:125-202 | So do the events of every delta that the channel takes |
| DraftLedger.CollectUpdate | src/query_api/execution_events.py:329-342 | Appending to one writer changes that place of the collected draft and nothing else |
| DraftLedger.GrowCounts | src/query_api/execution_events.py:436-462 | The byte count and the snapshot size, advanced by increments, equal a count of the whole draft from scratch |
| DraftLedger.GrowSplit | frontend/src/execution.ts:191-211 | A delta in two parts, the second at the advanced offset, grows the same draft |
| DraftLedger.GrowSlots | frontend/src/execution.ts:191-211 | A delta appends to its own place and leaves every other place as it is |
| DraftLedger.RecordBalanced | src/query_api/execution_events.py:176-190 | Recording a delta keeps every running value of the channel equal to what it stands for |
| EventLog.FollowNext | frontend/src/execution.ts:169-217 | The client follows the next event of a log exactly when the step is a legal continuation, with the error that the event carries, and asks for a snapshot otherwise |
| EventLog.Agreement | frontend/src/execution.ts:126-217 | Whatever messages are lost, repeated or reordered, the client is absent or equal to the log at its own sequence number, a public error aside; only a delivered persisted record can put it ahead, and then exactly that record's outcome is shown |
| EventLog.PublicError | frontend/src/execution.ts:169-217 | A public error that the client shows is the one that the log ends with at its sequence number |
| EventLog.CatchUp | frontend/src/execution.ts:126-217 | A snapshot followed by the remaining events in order reaches every later state of the log, and shows the error that a log read to its end ends with |
| EventLog.FirstSnapshot | frontend/src/execution.ts:132-168 | A first snapshot gives exactly the log's state |
| EventLog.NextTaken | frontend/src/execution.ts:169-217 | A client that is up to date takes the next event, with the error that it carries, and does not ask again |
| EventLog.SnapshotTaken | frontend/src/execution.ts:132-168 | A client that is behind takes a newer snapshot and never asks again |
| EventLog.AsksExactly | frontend/src/execution.ts:126-217 | A client that agrees with the log asks for a snapshot exactly when an event runs ahead of it, or when it has seen the end and an older snapshot of the same generation arrives |
| EventLog.AsksFirst | frontend/src/execution.ts:126-131 | A client without a state asks for a snapshot exactly when it is sent an event |
| EventLog.PersistedOutcome | src/query_api/execution_api.py:169-188 | After the channel is gone the persisted outcome is taken exactly at generation 0 with an event seen; otherwise it is dropped silently |
| EventLog.OutcomeLost | src/query_api/execution_api.py:169-188 | A concrete legal log with a retry and a client at its first event: the persisted success is dropped, the client stays running and does not ask again |
| EventChannel.SplitUtf8 | src/query_api/execution_events.py:417-433 | A text is cut at code-point boundaries into non-empty chunks within the limit, none with room for the character after it, exactly when every character fits |
| EventChannel.ExecutionEventChannel.constructor | src/query_api/execution_events.py:26-66 | A new channel has an empty log and the execution's stored state |
| EventChannel.ExecutionEventChannel.SetStatus | src/query_api/execution_events.py:78-94 | Which status calls are refused, ignored or appended, that the state stays the meaning of the log, and that a call whose event does not fit has changed the state |
| EventChannel.ExecutionEventChannel.SetStage | src/query_api/execution_events.py:96-105 | A stage is appended, ignored after the end, or torn when its event does not fit |
| EventChannel.ExecutionEventChannel.SetTaskProgress | src/query_api/execution_events.py:107-123 | Counts are refused exactly when they are not 0 to a positive total |
| EventChannel.ExecutionEventChannel.TextDelta | src/query_api/execution_events.py:125-202 | A delta is refused exactly when it is malformed, does not continue the draft, exceeds a cap or cannot be cut to fit the buffer, the last only when an event with at most seven bytes of this very delta does not fit; a refusal changes nothing, and a delta that is taken is carried whole and leaves the draft and its snapshot within the caps |
| EventChannel.ExecutionEventChannel.CheckDelta | src/query_api/execution_events.py:142-166 | The running counters pass a delta exactly when it continues the draft and keeps the draft and its snapshot, counted from scratch, within the caps |
| EventChannel.ExecutionEventChannel.DeltaEventsFit | src/query_api/execution_events.py:204-236 | All events of a cut delta fit the buffer |
| EventChannel.ExecutionEventChannel.FitChunks | src/query_api/execution_events.py:168-174 | Halving stops at the first limit whose chunks all fit; when there is none, an event with a piece of at most seven bytes of this delta does not fit |
| EventChannel.SmallDelta | src/query_api/execution_events.py:125-236 | A text of at most 16 KiB whose event fits the buffer travels whole, as one event |
| EventChannel.ExecutionEventChannel.Reset | src/query_api/execution_events.py:238-246 | A reset opens a new generation with an empty draft |
| EventChannel.ExecutionEventChannel.Finish | src/query_api/execution_events.py:248-272 | The final status is appended once, and the draft is gone |
| EventChannel.ExecutionEventChannel.CurrentDraft | src/query_api/execution_events.py:329-342 | The draft put together from the writers is the draft of the log |
| EventChannel.ExecutionEventChannel.TakeSnapshot | src/query_api/execution_events.py:314-327 | A snapshot is the fold of the whole log |
| EventChannel.ExecutionEventChannel.ReadAfter | src/query_api/execution_events.py:288-312 | A subscriber reads exactly the events that it misses, or a snapshot when the ring has moved past it |
| EventChannel.ExecutionEventChannel.Append | src/query_api/execution_events.py:359-382 | An event is appended exactly when it fits, numbered next, and the ring keeps the longest suffix of the log within both limits |
| EventChannel.RingExact | src/query_api/execution_events.py:359-382 | The ring holds exactly as many of the newest events as both limits allow |
| EventChannel.DeltaFold | src/query_api/execution_events.py:191-202 | The chunks of a delta, applied one by one, grow the draft as the whole text does |
| ChannelDelivery.StageLegal | src/query_api/execution_events.py:96-105 | A stage keeps the log legal exactly when it does not move back |
| ChannelDelivery.ProgressLegal | src/query_api/execution_events.py:107-123 | Counts keep the log legal exactly when they do not decrease and the total stays |
| ChannelDelivery.StatusLegal | src/query_api/execution_events.py:78-94 | A status keeps the log legal exactly when it is in rank order, which the channel enforces |
| ChannelDelivery.ResetLegal | src/query_api/execution_events.py:238-246 | A reset keeps the log legal |
| ChannelDelivery.FinishLegal | src/query_api/execution_events.py:248-272 | The final event keeps the log legal, and no event after it would |
| ChannelDelivery.TakenDeltaLegal | src/query_api/execution_events.py:125-202 | Every delta that the channel takes keeps the log legal |
| ChannelDelivery.SubscriberInStep | src/query_api/execution_events.py:288-312 | A subscriber in step stays in step with what it reads next, never asks for a snapshot, and learns the public error that the log ends with from the events |
| ReportDraft.DeltasDraw | src/business_analysis/report_stream.py:287-312 | Applying the deltas of a feed continues the draft of the earlier feeds exactly, however characters were merged |
| ReportDraft.DrawShows | frontend/src/execution.ts:191-211 | A draft shows at each place exactly what was published for it |
| ReportDraft.DocumentDrawn | frontend/src/execution.ts:191-211 | No delta of a document is refused for its place exactly when no list item without text comes before one with text |
| ReportDraft.DocumentDraft | src/business_analysis/report_stream.py:177-312 | A document's draft holds exactly the strings of its six root fields |
| ReportCandidate.ReportCandidate | src/business_analysis/reporting.py:351-379 | A payload is accepted exactly when it has the eight fields with the right content; otherwise the first fault is named |
| ReportCandidate.StripExact | src/business_analysis/reporting.py:351-379 | Stripping removes the white space at both ends of a text, all of it, and nothing else |
| ReportCandidate.ReportableExact | src/business_analysis/reporting.py:351-379 | A report is accepted exactly when it has the eight fields and no other, its texts say something, and its lists hold texts that say something and differ from each other, white space around them aside |
| ReportCandidate.ReportableDrawn | src/business_analysis/reporting.py:351-379 | A report that is accepted never had a delta refused for its place |
| ReportCandidate.ReportIsDraft | src/business_analysis/reporting.py:351-379 | The stored report is the shown draft, field by field, stripped |
| ReportReferences.IncompleteTasks | src/business_analysis/reporting.py:480-496 | Exactly the tasks that did not complete with all their rows are marked, in order, each with exactly its reasons |
| ReportReferences.AnswersMarked | src/business_analysis/reporting.py:480-496 | From the answers to the queries to the marks: a task is left unmarked exactly when its query answered with rows, all of them; a cut-off answer is marked as truncated, one without rows as empty, a failed one as failed, and one that was not queried as skipped |
| ReportReferences.CheckReport | src/business_analysis/reporting.py:429-477 | The references of a report are accepted exactly when evidence names completed tasks and the marked tasks are the incomplete ones |
| ReportReferences.ReportAccounts | src/business_analysis/reporting.py:429-453 | In an accepted report a failed or skipped task is marked and is no evidence, and an unmarked one completed with all rows |
| ReportReferences.OnlyEmptyMarked | src/business_analysis/application.py:628-691 | A run reaches its report with every task done, so that only empty results are marked |
| ReportRun.Publish | src/business_analysis/reporting.py:382-384 | One delta is handed to the channel, which takes it, or refuses it for the cause that its own state gives |
| ReportRun.DeltasTotal | src/business_analysis/report_stream.py:287-312 | The deltas of a feed carry the characters that it publishes, each once |
| ReportRun.PublishAll | src/business_analysis/reporting.py:237-238 | The deltas of a feed are published in order up to the first refusal |
| ReportRun.ReadChunk | src/business_analysis/reporting.py:204-240 | One chunk of the provider: it extends the text, the decoder and the draft, or the attempt stops for what is wrong with this very chunk: not text, too large, not JSON, or a refused delta, in this order |
| ReportRun.RunAttempt | src/business_analysis/reporting.py:183-263 | One attempt: complete with a decoded text within the limit that the draft shows, interrupted by the provider after chunks that could all be read, or stopped by its first chunk that cannot be read |
| ReportRun.ResetDraft | src/business_analysis/reporting.py:247-253 | A reset between attempts leaves an empty draft and a new generation |
| ReportRun.OneFate | src/business_analysis/reporting.py:170-264 | What the provider delivers has exactly one end: the text of the first attempt that is not broken off, the fault of its first chunk that cannot be read, or a failed provider |
| ReportRun.StreamJson | src/business_analysis/reporting.py:170-264 | At most two attempts: the text comes from one complete attempt and is within the limit, the channel's draft is what that text publishes and holds nothing of the other attempt, unless the channel refuses a delta the stream ends as `OneFate` says, and the log grows by no more than the caps |
| DraftSize.LitSize | src/query_api/execution_events.py:436-462 | Every spelling of a string takes at least the bytes of its compact spelling |
| DraftSize.SnapshotFits | src/query_api/execution_events.py:157-166 | The snapshot of a report's draft is never larger than the report's JSON text |
| ReportDelivery.ShownReport | src/business_analysis/reporting.py:170-264 | The draft of a finished stream holds exactly the strings of the text's six root fields, and the accepted report is that draft, stripped |
| ReportDelivery.DraftReachesClient | frontend/src/execution.ts:126-217 | A subscriber in step that reads what comes next shows the channel's draft |
| ReportDelivery.DecoderDeltas | src/business_analysis/report_stream.py:287-312 | Every delta of the decoder is well formed for the channel |
| ReportDelivery.RefusedOnlyForSpace | src/query_api/execution_events.py:125-202 | While a good report arrives, a delta is refused only when an event with at most seven bytes of that very delta, on this execution, does not fit the buffer |
| ReportRoom.RoomForPieces | src/query_api/execution_events.py:168-174 | When every small event of the execution up to a sequence number fits the buffer, no delta within the caps finds it too tight |
| ReportRoom.RefusedExactly | src/query_api/execution_events.py:125-174 | With that room the channel has a cause to refuse a delta exactly when it is malformed, out of place or too large |
| ReportRoom.NothingFails | src/business_analysis/reporting.py:170-264 | With that room no cause is left that could end the stream of a good report, or of one after an attempt broken off inside a good report, without its text |
| ReportRoom.AcceptedIsGood | src/business_analysis/reporting.py:351-379 | Every report of bounded size that the candidate check accepts is good in this sense |
| ReportRoom.StreamGoodReport | src/business_analysis/reporting.py:170-264 | With that room the stream of a good report ends with exactly the report's text, the channel's draft is the report's draft, and the log stays legal for every subscriber |
| EventStreamText.RunConcat | frontend/src/execution.ts:230-249 | Feeding a text in two parts is feeding it whole |
| EventStreamText.LinesRead | frontend/src/execution.ts:230-271 | Reading character by character gives exactly the lines of section 9.2.5 of the HTML standard, for any mix of CR, LF and CR LF, a final CR held back |
| EventStreamParser.SSEParser.Feed | frontend/src/execution.ts:230-249 | A chunk advances the parser's fields as the machine does and returns its frames or failure |
| EventStreamParser.SSEParser.FinishLine | frontend/src/execution.ts:253-271 | A line is a comment, a field or the end of an event, as in section 9.2.6 of the HTML standard |
| EventStreamParser.SSEParser.ReadChar | frontend/src/execution.ts:233-248 | One character counts towards the byte limit and ends a line or extends it |
| EventStreamParser.FramesShift | frontend/src/execution.ts:230-249 | What is read next does not depend on the frames that came before |
| EventStreamParser.ReadStream | frontend/src/execution.ts:273-290 | A stream read in any chunks gives what the standard's reading of its whole text gives |
| EventStreamParser.SplitLaid | frontend/src/execution.ts:230-249 | Lines come back from any mix of line ends that keeps them apart |
| EventStreamPrinting.AddBlock | frontend/src/execution.ts:253-271 | The lines of a block give its type and its data, whatever other fields and comments are between them |
| EventStreamPrinting.PrintedStream | frontend/src/execution.ts:219-271 | Printed events parse back to themselves, or fail for what is wrong with the first one that is too large or not JSON |
| EventStreamPrinting.FaultExact | frontend/src/execution.ts:233-271 | A list of events has no fault exactly when each fits and holds JSON; otherwise it has that of its first bad one |
| EventStreamPrinting.FieldExact | frontend/src/execution.ts:253-265 | The field of a line is what stands before its first colon, the value what follows, without one space |
| EventStreamPrinting.JoinedLaid | frontend/src/execution.ts:253-271 | The data of an event is its lines, each but the last ended by LF |
| EventStreamPrinting.EncodedBlock | src/query_api/execution_events.py:412-414 | `encode_sse` prints the lines of a block, each ended by LF |
| EventStreamPrinting.ServerStream | src/query_api/execution_events.py:412-414 | The server's events and heartbeats parse to the events alone, in order, while each fits |
| HistoryModel.OneAccepted | src/chatbi_control/history.py:767-865 | A turn is accepted exactly when it is the active turn of its record |
| HistoryModel.OrdinalsExact | src/chatbi_control/history.py:767-865 | The ordinals of a live record are exactly 1 to `next_ordinal` minus 1 |
| HistoryModel.LiveWhileAccepted | src/chatbi_control/execution.py:109-211 | An execution is live exactly while its turn is accepted, and succeeded exactly when its turn is |
| HistoryInvariant.StartKeeps | src/chatbi_control/history.py:767-865 | Starting a turn keeps the invariant |
| HistoryInvariant.AddKeeps | src/chatbi_control/execution.py:63-107 | Inserting an execution for an accepted turn keeps it |
| HistoryInvariant.MoveKeeps | src/chatbi_control/execution.py:109-177 | A move between live statuses keeps it |
| HistoryInvariant.SettleKeeps | src/chatbi_control/history.py:868-948 | Ending the active turn with its execution keeps it |
| HistoryInvariant.RecordKeeps | src/chatbi_control/history.py:617-655 | A new record keeps it |
| HistoryInvariant.DeleteKeeps | src/chatbi_control/history.py:1085-1113 | Deleting a record with its turns and executions keeps it |
| HistoryInvariant.EpochKeeps | src/query_api/history_runtime.py:31-50 | The recovery of a new process keeps it and leaves nothing accepted |
| HistoryTransactions.BeginKeeps | src/chatbi_control/history.py:767-865 | `_begin` commits only consistent tables |
| HistoryTransactions.BeginExecutionKeeps | src/chatbi_control/history.py:278-360 | So does accepting an execution |
| HistoryTransactions.BeginRequeryKeeps | src/chatbi_control/history.py:363-582 | So does accepting a requery |
| HistoryTransactions.ProgressKeeps | src/chatbi_control/history.py:112-163 | So do the start and the stop request of an execution |
| HistoryTransactions.FinishStoppedExact | src/chatbi_control/history.py:208-275 | Ending a stopped execution keeps the invariant exactly when the status given is failed, cancelled or timed out |
| HistoryTransactions.FinishStoppedStray | src/chatbi_control/history.py:208-275 | Ending a stopped execution as succeeded commits and breaks the invariant |
| HistoryTransactions.FinishExact | src/chatbi_control/history.py:868-948 | A completion keeps the invariant exactly when the execution given is the one of the token's turn |
| HistoryTransactions.FinishStray | src/chatbi_control/history.py:868-948 | A completion with the execution of another history commits and breaks the invariant |
| HistoryTransactions.ReconcileKeeps | src/query_api/history_runtime.py:101-135 | Giving up an abandoned turn commits only consistent tables |
| HistoryEffects.BeginExact | src/chatbi_control/history.py:767-865 | A token is issued exactly to a request whose record is live and the caller's, free, without a turn of the operation and at the revision given, in the current process; the new turn and its record then carry the request; a repeated request gets its ended turn, and nothing is written |
| HistoryEffects.BeginRefuses | src/chatbi_control/history.py:780-810 | A refused attempt is told what is wrong |
| HistoryEffects.BeginAnalysisExact | src/chatbi_control/history.py:732-765 | A resume is accepted exactly against the record revision given, with the first question |
| HistoryEffects.BeginExecutionExact | src/chatbi_control/history.py:278-360 | An execution is created exactly for a new submission that asks for an acceptable attempt, and its row carries the submission; a repeated one gets its execution or conflicts |
| HistoryEffects.RequeryExact | src/chatbi_control/history.py:363-582 | A new requery is accepted exactly when its source offers something; its history, turn, input and execution are those of the source |
| HistoryEffects.RequeryRepeats | src/chatbi_control/history.py:363-582 | A repeated requery returns its ended turn and writes nothing, or is refused |
| HistoryEffects.FinishCommits | src/chatbi_control/history.py:868-948 | A completion commits exactly for the running attempt of the token whose execution is neither stopped nor ended |
| HistoryEffects.FinishWrites | src/chatbi_control/history.py:868-948 | A completion writes the snapshot, the error and the statuses, and counts a success in the context revision; every other row stays |
| HistoryEffects.FinishStoppedCommits | src/chatbi_control/history.py:208-275 | The end of a stopped execution commits exactly for the stopping execution of the token's running attempt |
| HistoryEffects.FinishStoppedWrites | src/chatbi_control/history.py:208-275 | It writes the failed turn, the status and the error, and releases the record; every other row stays |
| HistoryEffects.RunningExact | src/chatbi_control/execution.py:109-143 | An execution is started exactly for its owner while it is accepted or running |
| HistoryEffects.StopExact | src/chatbi_control/history.py:112-163 | A stop reaches exactly the accepted and running executions, keeps its reason, and leaves every other one as it is; a user's cancel of an analysis needs its run expired |
| HistoryEffects.CreateExact | src/chatbi_control/history.py:619-655 | A history is inserted exactly for a new operation, with a title of at most 120 characters; a repeated one gets its history or conflicts |
| HistoryEffects.RenameExact | src/chatbi_control/history.py:1067-1083 | A title is changed exactly against the current revision, and nothing else changes |
| HistoryEffects.DeleteExact | src/chatbi_control/history.py:1085-1113 | A history is deleted exactly against the current revision while no attempt runs; its text, turns and executions go, and every other row stays |
| HistoryEffects.RestartExact | src/query_api/history_runtime.py:31-50 | A new process gives up exactly what was left running, and nothing else changes |
| HistoryEffects.ReconcileExact | src/query_api/history_runtime.py:101-135 | Giving up an abandoned attempt changes exactly its turn, its execution and its record |
| HistoryRuns.ApplyKeeps | src/chatbi_control/history.py:112-1113 | Every allowed transaction keeps the invariant |
| HistoryRuns.RunEvolves | src/chatbi_control/history.py:112-1113 | Along every run, revisions, generations and ordinals only grow, every change of a record raises its revision, ended turns and terminal executions never change, statuses only move up |
| HistoryRuns.EveryRunConsistent | src/chatbi_control/history.py:112-1113 | From the empty database, every run of allowed transactions and restarts keeps the invariant |
| HistoryRuns.StopWins | src/chatbi_control/execution.py:163-211 | Once an execution is stopping it never succeeds, nor does its turn, and the first reason stays |
| HistoryRuns.ReplayLater | src/chatbi_control/history.py:278-360 | Replaying an accepted operation at any later time gives the same execution and changes nothing, or conflicts on another hash |
| HistoryRuns.RequeryLater | src/chatbi_control/history.py:363-582 | The same for a requery |
| HistoryRuns.StaleToken | src/chatbi_control/history.py:868-948 | A token of an earlier generation or process never changes anything in any later state |
| HistoryRuns.CompletesOnce | src/chatbi_control/history.py:208-275 | A token completes its turn at most once |
| HistoryRuns.EditsOnce | src/chatbi_control/history.py:1067-1113 | After any change of a record, no later rename or delete against the old revision succeeds |
| HistoryEffects.StaleContext | src/chatbi_control/history.py:802-803 | However long a run goes on, an attempt against an earlier context revision gets no token |
| HistoryEffects.SuccessFences | src/chatbi_control/history.py:802-803 | Once a turn of a history has succeeded, no attempt against the context that was current before gets a token |
| HistoryStore.PostgresHistoryStore.Begin | src/chatbi_control/history.py:767-865 | The row updates of `_begin` are one atomic transaction: they commit what the function says, or change nothing |
| HistoryStore.PostgresHistoryStore.BeginAnalysis | src/chatbi_control/history.py:732-765 | The same for an analysis attempt |
| HistoryStore.PostgresHistoryStore.BeginExecution | src/chatbi_control/history.py:278-360 | The same for accepting an execution |
| HistoryStore.PostgresHistoryStore.BeginRequery | src/chatbi_control/history.py:363-582 | The same for accepting a requery |
| HistoryStore.PostgresHistoryStore.Create | src/chatbi_control/history.py:617-655 | The same for a new history |
| HistoryStore.PostgresHistoryStore.Rename | src/chatbi_control/history.py:1067-1083 | The same for a new title |
| HistoryStore.PostgresHistoryStore.Delete | src/chatbi_control/history.py:1085-1113 | The same for a deletion, with the cascade over turns and executions |
| HistoryStore.PostgresHistoryStore.MarkRunning | src/chatbi_control/execution.py:109-143 | The same for the start of an execution |
| HistoryStore.PostgresHistoryStore.RequestStop | src/chatbi_control/history.py:112-163 | The same for a stop request |
| HistoryStore.PostgresHistoryStore.FinishAttempt | src/chatbi_control/history.py:868-948 | The same for a completion |
| HistoryStore.PostgresHistoryStore.FinishStopped | src/chatbi_control/history.py:208-275 | The same for the end of a stopped execution |
| HistoryStore.PostgresHistoryStore.Restart | src/query_api/history_runtime.py:31-50 | The recovery updates all three tables |
| HistoryStore.PostgresHistoryStore.Reconcile | src/query_api/history_runtime.py:101-135 | The same for giving up an abandoned turn |
| AuditDetails.ContainsSensitiveDetails | src/authorization/audit_service.py:145-180 | On every finite heap, cyclic or shared, the walk ends, and accepts exactly a dictionary from which no cycle, no forbidden key and no foreign value can be reached |
| AuditDetails.CleanIn | src/authorization/audit_service.py:145-180 | What is clean from a container is clean from everything in it, with the container among the open ones |
| AuditDetails.CleanOut | src/authorization/audit_service.py:145-180 | And back: clean contents and no way back to an open container make a clean container |
| AuditDetails.CheckKeys | src/authorization/audit_service.py:127-142 | A dictionary's keys are allowed exactly when none is forbidden after folding |
| AuditDetails.AllowedExact | src/authorization/audit_service.py:127-142 | A key is allowed exactly when it is a text in which, folded, none of the seven words stands anywhere |
| AnalysisPlan.CycleUnbounded | src/business_analysis/planning.py:308-327 | A task that reaches a cycle has no depth |
| PlanValidation.DepthSearch.Depth | src/business_analysis/planning.py:308-327 | The memoised search ends and gives the longest chain of a task, or finds a cycle that it reaches |
| PlanValidation.Index | src/business_analysis/planning.py:281-288 | Tasks are indexed exactly when their ids are distinct |
| PlanValidation.CheckDependencies | src/business_analysis/planning.py:290-306 | Dependencies are distinct, known and not the task itself, or the fault is named |
| PlanValidation.CheckDepths | src/business_analysis/planning.py:308-335 | Every chain is within the limit, or a cycle or a chain too long is found |
| PlanValidation.ResolveAll | src/business_analysis/planning.py:454-480 | Metrics and dimensions are replaced exactly when each resolves to one name |
| PlanValidation.ValidateAnalysisPlan | src/business_analysis/planning.py:260-359 | Validation accepts exactly the acceptable plans, keeps ids, order and dependencies, and a rejection names the first check that fails, at the first task that fails it |
| PlanValidation.OneReason | src/business_analysis/planning.py:260-359 | A plan has at most one such reason, and none when it is acceptable |
| PlanValidation.AcceptedAcyclic | src/business_analysis/planning.py:260-359 | An accepted plan has no cycle and no chain longer than the limit |
| TaskScheduler.OneMeaning | src/business_analysis/execution.py:126-178 | A founded graph has one meaning: each task has one result, however the results were reached |
| TaskScheduler.SameResults | src/business_analysis/execution.py:126-178 | The same for all tasks together |
| TaskScheduler.OneGraph | src/business_analysis/execution.py:126-178 | Two orders of the same distinct tasks have the same graph |
| TaskScheduler.OrderIrrelevant | src/business_analysis/execution.py:126-178 | Two runs over the same tasks in different orders both get stuck, or give every task the same result and issue the same queries |
| TaskScheduler.Pass | src/business_analysis/execution.py:126-178 | A pass decides what is ready, in order, leaves the rest, and makes progress unless nothing is ready |
| TaskScheduler.Execute | src/business_analysis/execution.py:126-178 | The loop is stuck exactly on a missing or cyclic dependency; otherwise one result per task in plan order that holds what the answer to its query says, each query once and after its dependencies, in at most depth plus one passes |
| TaskScheduler.RunReports | src/business_analysis/execution.py:193-281 | Each result is that of its own task: queried exactly when all dependencies completed; a success keeps its rows, count and truncation, each way to fail has its own code and no rows, and a skipped task says so |
| TaskScheduler.AcceptedRuns | src/business_analysis/planning.py:260-359 | A plan accepted by validation never gets stuck |
| AnalysisRun.NodeKeeps | src/business_analysis/application.py:398-626 | Every node of the graph keeps the stored results a prefix of the plan with all but the last done, and queries no task that is done |
| AnalysisRun.NodeEnds | src/business_analysis/application.py:733-745 | Every step through the graph makes progress, so that a call ends |
| AnalysisRun.HalfwayStep | src/business_analysis/application.py:398-745 | Every node takes a call that nobody stops one step on towards the end that `Ends` describes |
| AnalysisRun.BusinessAnalysisRun.Claim | src/business_analysis/run_store.py:44-92 | The register admits exactly the owner of an unexpired run with the same question, or names the conflict |
| AnalysisRun.BusinessAnalysisRun.MarkCompleted | src/business_analysis/run_store.py:94-113 | Only an active run is completed, and only its status changes |
| AnalysisRun.BusinessAnalysisRun.CleanupExpired | src/business_analysis/run_store.py:115-155 | A run past its time is expired and its checkpoint deleted; any other is untouched |
| AnalysisRun.BusinessAnalysisRun.Cancel | src/chatbi_control/history.py:165-206 | A cancellation expires the run of its owner and question, registers an expired one when there is none, and refuses a foreign one |
| AnalysisRun.BusinessAnalysisRun.Withdraw | src/chatbi_control/history.py:1085-1112 | A deletion expires the run at once, or registers it as expired |
| AnalysisRun.BusinessAnalysisRun.Invoke | src/business_analysis/application.py:343-387 | The graph runs node after node to its end, or stops exactly where it is told to, with the queries of that node issued and its result not stored when it is told within it; nothing done is lost or queried again |
| AnalysisRun.BusinessAnalysisRun.CompletedResult | src/business_analysis/application.py:302-341 | A completed run answers its stored failure, or its report with every task done: its checkpoint is never without both |
| AnalysisRun.BusinessAnalysisRun.Conclude | src/business_analysis/application.py:256-300 | A run at its end is left active exactly when its failure is retryable, is completed otherwise while its time has not passed, and answers a report exactly when there is no failure and it could be completed |
| AnalysisRun.ResumableExact | src/business_analysis/application.py:747-767 | A run is left open exactly for a failure whose code, or that of a stored result, is one of the four that may pass |
| AnalysisRun.BusinessAnalysisRun.Analyze | src/business_analysis/application.py:184-300 | One call: only an open run executes tasks; a call that nobody stops queries the tasks that are not done in plan order, each once more after a failure that may pass, until one cannot be done, and then the attribution and the summary decide; the completing answer is the one repeated later; a failed extraction without a plan is stored and leaves the run open, and exactly such a failure prevents success for good |
| AnalysisSeries.CallOnce | src/business_analysis/application.py:184-300 | What one analysis, cancellation, deletion or sweep may do to the register, the checkpoint and the queries |
| AnalysisSeries.AnalyzeSeries | src/business_analysis/application.py:184-300 | Any series of them is a chain of such steps |
| AnalysisSeries.SeriesSafe | src/business_analysis/application.py:530-626 | Over any series the results stay a prefix of the plan, a task that is done is in no later query, and nothing is queried after the run is completed, cancelled, deleted or expired |
| AnalysisSeries.OneReport | src/business_analysis/application.py:302-341 | All reports that a series gives are the same report, with every task done |
| AnalysisSeries.LostRun | src/business_analysis/application.py:398-475 | After a failed extraction a later call in which everything goes well gives the same failure again and queries nothing |
| ProductTable.FindColumns | src/business_analysis/attribution.py:236-269 | The columns are found exactly when each needed role has one; otherwise a doubled or missing role is named |
| ProductTable.EntryExact | src/business_analysis/attribution.py:271-311 | Each number of a row is read from the one column whose title names its role |
| Attribution.FactorsExact | src/business_analysis/attribution.py:337-410 | The two or three factors of a continuing product sum exactly to its change |
| Attribution.FactorsSymmetric | src/business_analysis/attribution.py:337-410 | The split is the symmetric one: read backwards each factor changes its sign only, and a factor is zero when its quantity, price or unit cost has not changed |
| Attribution.ContributionExact | src/business_analysis/attribution.py:337-421 | The factor check never fails, and every product contributes exactly its change |
| Attribution.AddRows | src/business_analysis/attribution.py:271-311 | Every product gets the sums of exactly its own rows, and the total is the total of all rows; otherwise the first bad row is named |
| Attribution.OneSum | src/business_analysis/attribution.py:271-311 | The rows determine the products and their sums |
| Attribution.ProductValues | src/business_analysis/attribution.py:236-311 | A table is read exactly when its columns and rows are right, and then every product has the sums of its own rows |
| Attribution.Contribute | src/business_analysis/attribution.py:196-206 | Every product of either period contributes its own change once, in name order, a continuing one with the factors of its own two periods |
| Attribution.Conservation | src/business_analysis/attribution.py:196-213 | All contributions sum exactly to the difference of the period totals |
| Attribution.TopProducts | src/business_analysis/attribution.py:424-436 | At most three products that move with the total, the largest first, names breaking ties |
| Attribution.TopExact | src/business_analysis/attribution.py:424-436 | The main products move the way the total does, stand by the size of their change and then by name, and none left out comes before them |
| Attribution.LessExact | src/business_analysis/attribution.py:424-436 | The order of the names is the lexicographic one |
| Attribution.CalculateProductAttribution | src/business_analysis/attribution.py:143-224 | A report exactly when the evidence is complete and all three totals reconcile; every product's change and factors come from its own rows; a main product when the change exceeds the tolerance; and what each refusal means |
| Attribution.DriftHappens | src/business_analysis/attribution.py:208-213 | Two periods that reconcile can still miss the total change |
| NumberFormat.ScanExact | frontend/src/numberFormat.ts:5-8 | The regular expression reads exactly the decimal numerals, and as those |
| NumberFormat.ParsedExact | frontend/src/numberFormat.ts:9-14 | Digits over ten to the scale is the exact value with its exponent |
| NumberFormat.RoundNearest | frontend/src/numberFormat.ts:34-37 | Half-up rounding gives the nearest multiple, the upper one on a tie |
| NumberFormat.GroupedExact | frontend/src/numberFormat.ts:17 | Commas stand before every third digit from the right, and taking them out gives the digits back |
| NumberFormat.LayoutReads | frontend/src/numberFormat.ts:38-43 | An amount is printed with exactly its places and reads back; zero has no sign |
| NumberFormat.DisplayRounds | frontend/src/numberFormat.ts:19-44 | Money and ratios show the exact value, times 100 for a ratio, rounded to two places with ties away from zero |
| NumberFormat.CountExact | frontend/src/numberFormat.ts:28-32 | A count is shown as exactly its integer when its places are zeros, and raw when it is not whole or is zero with more places than digits |
| NumberFormat.PlainExact | frontend/src/numberFormat.ts:19-44 | A plain number is shown with all its places and reads back exactly |
| NumberFormat.RawExact | frontend/src/numberFormat.ts:5-27 | Exactly the readable numbers of certified metric columns with a format are formatted; everything else is shown as it came, an absent value and an empty text by their words |
| NumberFormat.RoundedToZeroExact | frontend/src/numberFormat.ts:46-49 | `roundedToZero` holds exactly for a value that is not zero, is shown as money or as a ratio whose label the pattern lets follow, and rounds to zero |

## Left out

- The decoder's fields after a raise: the caller drops the decoder, so that only the error is modelled. `_Frame` and `_String` objects are values in the class's fields.
- ReportStream.IncrementalReportJSONDecoder.CompleteValue: requires a stack that is not empty, as CloseContainer, StartValue and the object and array methods do; DecoderLanguage.StateInvalidUnreachable shows that no call from `feed` violates it.
- Locks, waiting, time-outs and `NOWAIT` contention: every call and every transaction is one atomic step in some serial order. The limit on subscribers is not modelled.
- `ExecutionStopped` at the checkpoints inside `_stream_json`; in the analysis run a stop can happen in front of every node and before its result is stored.
- ReportRun.StreamJson: ends with the text that the decoder accepted. `_parse_report_json` then reads it again, and its `json.loads` can still raise on very deep nesting or very long integers.
- The size of an event as compact JSON is a parameter of the channel, any function of the event.
- EventChannel.ExecutionEventChannel.TextDelta: an offset or index is a natural number; the refusals of negative and boolean ones, and of fields outside the six, are left to the types.
- JavaScript strings are sequences of code points here. UTF-16, the streaming `TextDecoder` and the byte order mark are not modelled.
- `JSON.parse` and `json.loads` are parameters: whether a text parses, and the parsed value. EventDecoding starts from the parsed value; `String(value)` of a one-element list, which the checks of stop reasons, of the status of a progress event and of a delta's field would take for its element, is read as an error.
- EventStreamParser.SSEParser.Feed: the parser's state after a failure is not described.
- SHA-256 digests are compared as values, case folding is a parameter, and identifiers are new when they have not been issued before. Recursion limits and memory are unbounded.
- Timestamps, deadlines and the columns that only hold them.
- The effects of stopping or deleting on `business_analysis_runs` are Cancel and Withdraw of the analysis run, and a parameter (`expirable`) of the stop request; that both sides are one transaction is not modelled.
- The checks of `history_codec` on snapshots, `copy_result`, saved results, listing and pagination.
- HistoryRuns.ApplyKeeps: allowed transactions use new identifiers, complete a turn with its own execution and end a stopped execution as failed, cancelled or timed out, which the callers in the repository do; HistoryTransactions.FinishExact and FinishStoppedExact give the exact conditions.
- `_safe_details_snapshot` copies the details through JSON; only the walk in front of it is modelled.
- `build_comparison_plan` and the parsing of plans and requests from model output: flat checks. In AnalysisRun they are the parameter `planning`.
- AnalysisRun.BusinessAnalysisRun.Analyze: one run at a time; the register's storage errors and the exceptions of the graph engine are not modelled.
- Attribution.CalculateProductAttribution: exact real numbers instead of decimals with 28 digits. A column title is read as the set of roles whose names it matches after normalization, and a cell as its stripped text and its finite number.
- NumberFormat.ScanExact: the lengths over 10000 digits and the exponents over 1000 that `decimal` refuses are part of its model; how JavaScript prints a number as text is not.
- ReportReferences.CheckReport: the reason text that lists the errors of tasks when none completed is left out, and so are the prompts.
- Authentication, sessions, the SQL guard, tracing, exports and the user interface.
