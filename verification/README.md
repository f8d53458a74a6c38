# Verified model of BEA's AI Command

This Dafny project models the parts of the application whose correctness depends on order,
interleaving or failure, and proves what they keep.

* **The response stream in the browser** (`JsText`, `Selections`, `EventStream`, `EventFrames`,
  `EventReading`, `EventConsumer`, `ChunkInvariance`, `AbortedStreams`, `StreamOutcomes`,
  `StreamStandard`, `StandardDelivery`, `ServerEvents`). The client normalises a growing buffer
  after every read, holds back a trailing CR, cuts frames at the leftmost blank line and enforces
  limits. The central result is that what it delivers is a function of the text alone: for every way
  the network may cut the response into reads, the events are those of the whole text
  (`ChunkInvariance.ChunkInvariance`), with the exact condition for that (`EveryChunkingFinishes`).
  So the events the server wrote are delivered, each once and in order
  (`ServerEvents.ServerEventsArrive`). How any run ends is said of the text, the limits, the signal
  and the handler (`StreamOutcomes`). The whole client is compared with sections 9.2.5 and 9.2.6 of
  the WHATWG HTML standard, written out independently, down to the events its handler is given.
* **The response run on the server** (`StoredArtifacts`, `ResponseRun`, `RunProperties`, `RunTable`,
  `RunFiles`, `SourceLinks`, `ConversationHistory`). A generator yields provider events, stores
  generated files, persists the result, is superseded, fails at any call, compensates and closes its
  record. What comes of it is a decision table over the calls that fail
  (`RunTable.RunFollowsTable`). For a run that returns, the status the database keeps is that of the
  event yielded; for a run that throws, `StatusKept` says which status is kept, and when that is
  `completed`. A completion keeps its stored files or releases each exactly as often as it was
  stored, whichever calls fail, if and only if no reference id repeats.
* **The request protocol in the browser** (`StreamedMessage`, `RequestProtocol`, `RequestRuns`,
  `RequestHistory`). Generations, abort of the request before, a serialised reservation queue and
  the streamed message form a state machine; the results hold in every interleaving. One of them
  joins both ends: when a stream has ended for the current request, the text on screen is the text
  of the whole response body, however it was cut.
* **Smaller cores**: the workspace history as a zipper (`WorkspaceHistory`), the agent tree over
  possibly cyclic supervisor links (`AgentHierarchy`, `HierarchyRendering`, `HierarchyOrder`), the
  map of PDF scroll positions (`InsertionMap`, `ScrollPositions`), the path canonicaliser
  (`WorkspacePaths`, `WorkspacePathLaws`, `WorkspaceRoutes`), bar charts and merged source rows
  (`BarChart`, `BarLayout`, `BarGeometry`, `SourceRows`), the local job loop (`JobLoop`) and the
  contact field of the task form (`TaskForm`).

Code that updates variables, fields or collections is modelled by methods and classes, each proved
against a specification function; the theorems are lemmas about those functions, over all inputs and
all runs, and say in their own terms (places in a list, limits, flags, steps of a run) what they
compute. Calls into databases, the file store, the provider, `JSON.parse`, `TextDecoder` and
`localeCompare` are parameters that may return or fail in any way their types allow.

`dafny verify dfyconfig.toml` checks the project.

## Where the code does less than one might expect

* A frame of 262,143 or 262,144 characters passes or fails depending on the reads, because the pending
  line break is counted (`ChunkInvariance.MarginIsNeeded`).
* The client also parses an unterminated last frame, which section 9.2.6 discards. On "data: x" without
  a blank line the standard dispatches nothing and the client parses a message
  (`StreamStandard.UnterminatedFrameIsParsed`); on streams of plain frames the two agree if and only if
  the unterminated rest has no data line (`StreamStandard.StreamMatchesExactly`).
* The first call that closes a run is the one that counts. A run whose packet or audit record fails
  after that throws, yields no terminal event and is still kept as completed, its artifacts failed if
  it was the packet (`RunProperties.StatusKept`, `PacketFailureKeepsCompleted`).
* The paths that throw between storing files and finalising the answer keep the files for retention
  cleanup (`RunFiles.KeepsFiles`).
* With repeated reference ids a completed run may have stored a file without any record of it, and a
  failing run may release a file once too often (`RunFiles.RepeatedIdLosesAFile`,
  `RepeatedIdReleasesTooMuch`). Both properties hold of every run if and only if the ids are distinct
  (`CompletedRunRecordsFilesExactly`, `FilesAreKeptOrReleasedExactly`).
* Compensation releases an id too often if and only if it is orphaned more often than it was stored
  (`StoredArtifacts.ContainmentIsNeeded`).
* The agent tree is cut at roots, and an agent supervised by the empty id is a root and still a report
  of an agent that has this id. Rendering never ends if and only if reports lead from the empty id back
  to it (`AgentHierarchy.RecursionEndsExactly`), and every node is shown exactly once or, below a cycle,
  never, if and only if no such agent exists with the empty id itself under a root
  (`HierarchyRendering.ShownExactly`). Entity ids are never empty.
* With more than 184 series a stacked chart leaves its plot area (`BarLayout.StacksFitExactly`); the
  limit of eight keeps it inside.
* An artifact path built from a record id that is not a UUID does not parse back
  (`WorkspacePathLaws.ArtifactPathsParseBack`).

## Model

| member | source | states |
|---|---|---|
| EventStream.TwoPassesAreOneScan | apps/web/lib/ai-command-client.ts:146-153 | replacing CRLF and then CR is one scan over line ends as section 9.2.5 defines them |
| EventStream.NormalizeIsStandard | apps/web/lib/ai-command-client.ts:146-153 | the buffer normalisation gives the standard's line ends, except that an unfinished text keeps its trailing CR |
| EventStream.Renormalize | apps/web/lib/ai-command-client.ts:187-190 | normalising a buffer again, extended by the next read, is normalising the whole text once |
| EventStream.CutAppend | apps/web/lib/ai-command-client.ts:191-200 | frames cut from a buffer stay cut, and later text only extends the rest |
| EventStream.CutKeepsText | apps/web/lib/ai-command-client.ts:191-200 | the frames, their blank lines and the rest are the whole text |
| EventStream.Advance | apps/web/lib/ai-command-client.ts:187-200 | one read leaves the frames and the rest of the whole text received so far, whatever the reads were |
| EventFrames.ValidExactly | apps/web/lib/ai-command-client.ts:82-129 | a record is accepted as an event if and only if it carries that event's fields with their types |
| EventFrames.ParseEventFrame | apps/web/lib/ai-command-client.ts:131-144 | the line loop computes the last event name and the data values in order, and the event they make |
| EventFrames.PayloadExactly | apps/web/lib/ai-command-client.ts:131-144 | the joined data equals the standard's dispatched data buffer if and only if every line strips to the same value |
| EventFrames.PrintThenParse | apps/web/lib/ai-command-client.ts:131-144 | data lines printed without line breaks or leading white space are read back |
| EventReading.ReadExactly | apps/web/lib/ai-command-client.ts:82-144 | a frame is read as an event if and only if it has a data line, its joined data is not "[DONE]" and is JSON of a record that carries the fields of that event, and the last event line names that event or there is no name; lines are told by their places |
| EventReading.WrittenIsRead | apps/web/app/api/ai-command/stream/route.ts:57-59 | the frame the server writes for an event, with its name and its JSON, is read as that event |
| ServerEvents.ServerEventsArrive | apps/web/lib/ai-command-client.ts:159-224 | round trip: for every chunking within the limits, the events the server wrote are delivered, each once and in order |
| StreamStandard.FramesMatchStandard | apps/web/lib/ai-command-client.ts:131-153 | for a whole raw stream of plain frames, the names and data parsed from the frames are the messages sections 9.2.5 and 9.2.6 dispatch, in order |
| StreamStandard.StreamMatchesExactly | apps/web/lib/ai-command-client.ts:187-207 | with the rest included, the client parses exactly those messages if and only if the unterminated rest has no data line |
| StreamStandard.UnterminatedFrameIsParsed | apps/web/lib/ai-command-client.ts:206-207 | one data line without a blank line is a message for the client and nothing for the standard |
| EventConsumer.DeliverBuffered | apps/web/lib/ai-command-client.ts:191-200 | the frame loop delivers the frames of the buffer in order until one is too large or its handler throws, and leaves the rest |
| EventConsumer.ReadChunk | apps/web/lib/ai-command-client.ts:181-190 | the abort polls around a read, the failed read and the byte limit |
| EventConsumer.ProcessChunk | apps/web/lib/ai-command-client.ts:187-203 | one read after its polls delivers exactly the frames it completes, and stops on a handler error or an oversized rest |
| EventConsumer.DeliverRest | apps/web/lib/ai-command-client.ts:206-207 | the trimmed rest is parsed as a last frame |
| EventConsumer.Consume | apps/web/lib/ai-command-client.ts:159-224 | the whole read loop delivers and ends as the specification over text prefixes says, abort, limits and handlers that throw depending on what they were given before included |
| StreamOutcomes.EveryRunEnds | apps/web/lib/ai-command-client.ts:179-219 | every run ends at some read before which nothing went wrong, with an outcome and events that follow from the text received, the limits, the signal and the handler at that read; an abort comes before the error |
| StreamOutcomes.FinishedExactly | apps/web/lib/ai-command-client.ts:179-208 | a stream finishes if and only if it was not aborted before its last poll, closed by itself, kept the byte limit and the frame limits, and no handler threw; then all its events were delivered |
| StreamOutcomes.HandlerErrorsEndTheStream | apps/web/lib/ai-command-client.ts:198-214 | an event on which the handler throws is the last delivered, and the failure is reported, or the abort if the signal is aborted; a failing handler is reported only then |
| ChunkInvariance.ChunkInvariance | apps/web/lib/ai-command-client.ts:146-207 | within the limits, with a margin of two on frames, every chunking delivers the events of the whole text |
| ChunkInvariance.EveryChunkingFinishes | apps/web/lib/ai-command-client.ts:191-204 | every chunking of a text is let through if and only if no prefix leaves a rest over the frame limit |
| ChunkInvariance.DeliveredIsPrefix | apps/web/lib/ai-command-client.ts:159-224 | whatever ends a run, it delivered a prefix of the events of the text |
| ChunkInvariance.MarginIsNeeded | apps/web/lib/ai-command-client.ts:201-203 | a frame at the limit passes in one read and is refused when its final CRLF is cut |
| AbortedStreams.AbortOnlyStopsReading | apps/web/lib/ai-command-client.ts:179-224 | at whatever poll the abort comes, it leaves exactly the events of the reads already made, buffered frames included, and is reported unless an error came first |
| AbortedStreams.AbortIsReported | apps/web/lib/ai-command-client.ts:179-219 | a stream aborted before its last poll never counts as finished or as broken |
| StandardDelivery.DeliversTheStandard | apps/web/lib/ai-command-client.ts:159-224 | for every chunking within the limits the handler is given the events of the standard's messages, then that of the rest |
| StandardDelivery.DeliversTheStandardExactly | apps/web/lib/ai-command-client.ts:206-207 | it is given exactly the standard's events if and only if the rest is no event |
| StoredArtifacts.PushesAreEntries | apps/web/lib/ai-command-stream.ts:519-601 | from any list and store, whichever calls of the try blocks throw, the loop with its handler appends one entry per reference, in order |
| StoredArtifacts.OneEntryPerReference | apps/web/lib/ai-command-stream.ts:519-601 | the loop pushes one entry per reference, in order, with file, manifest and null error code all present or all absent, the file stored, and the error code of what happened |
| StoredArtifacts.AddedAreEntriesOrLeaks | apps/web/lib/ai-command-stream.ts:552-597 | every copy preparation adds is the stored file of an entry or one whose immediate deletes all failed |
| StoredArtifacts.PrepareOne | apps/web/lib/ai-command-stream.ts:519-600 | the try block, its throw points, early pushes and the handler for one reference, on the list and the store |
| StoredArtifacts.PrepareAll | apps/web/lib/ai-command-stream.ts:518-602 | the preparation loop over all references |
| StoredArtifacts.UnreleasedCount | apps/web/lib/ai-command-stream.ts:610-619 | the cleanup filter keeps each id exactly as often as it was stored less the releases already counted |
| StoredArtifacts.CollectDue | apps/web/lib/ai-command-stream.ts:610-619 | the filter over prepared entries that uses the counts up |
| StoredArtifacts.ReleaseOrphans | apps/web/lib/ai-command-stream.ts:1410-1421 | the first pass counts exactly the deletes that succeeded |
| StoredArtifacts.Cleanup | apps/web/lib/ai-command-stream.ts:604-627 | the final pass tries every due delete, and throws only when the settings cannot be read and something is due |
| StoredArtifacts.Compensate | apps/web/lib/ai-command-stream.ts:1399-1428 | both passes after a metadata failure |
| StoredArtifacts.FirstPassReleases | apps/web/lib/ai-command-stream.ts:1399-1421 | the first pass counts an id once for each orphaned reference whose delete works, and never if the settings cannot be read |
| StoredArtifacts.ReleasedCount | apps/web/lib/ai-command-stream.ts:1399-1428 | in general an id leaves the store as often as it was stored or first released, whichever is more, less the failed final deletes, and only as often as first released without the settings for the final pass |
| StoredArtifacts.CompensationConserves | apps/web/lib/ai-command-stream.ts:604-627 | with orphans contained in the stored ids and working final deletes, each id is released exactly as often as it was stored |
| StoredArtifacts.ContainmentIsNeeded | apps/web/lib/ai-command-stream.ts:1399-1428 | with working deletes, conservation holds if and only if the orphans of an id are contained |
| ResponseRun.PrepareProviderArtifacts | apps/web/lib/ai-command-stream.ts:495-602 | the early returns of preparation, its settings failure and its effect on the store |
| ResponseRun.RecordMetadata | apps/web/lib/ai-command-stream.ts:1237-1382 | the records written for a completed result up to the first call that fails |
| ResponseRun.PersistCompletedResult | apps/web/lib/ai-command-stream.ts:1219-1431 | supersession, completion, and compensation after a metadata failure |
| ResponseRun.PersistTerminal | apps/web/lib/ai-command-stream.ts:1448-1452 | the message saved for a run without a result |
| ResponseRun.HandleCompleted | apps/web/lib/ai-command-stream.ts:1726-1810 | the completed branch of the event loop |
| ResponseRun.HandleTerminal | apps/web/lib/ai-command-stream.ts:1812-1857 | the cancelled and error branch |
| ResponseRun.Process | apps/web/lib/ai-command-stream.ts:1684-1935 | the generator past the run record, loop, end of stream and outer catch, equals the run specification |
| RunProperties.EventAndStatusAgree | apps/web/lib/ai-command-stream.ts:1650-1935 | in every run: at most one terminal event and nothing after it, one attempt with its status on return; on a throw the last attempt is cancelled if the signal is aborted and failed otherwise |
| RunProperties.StatusKept | packages/database/src/ai-provider-repository.ts:690-705 | the status the database keeps: that of the event on return; on a throw completed if and only if the closing of the completion went through, otherwise cancelled if the signal is aborted and failed if not, or none |
| RunProperties.PacketFailureKeepsCompleted | apps/web/lib/ai-command-stream.ts:1361-1382 | a run whose packet fails throws without a terminal event and is kept as completed with its artifacts failed |
| RunProperties.MetadataIs | apps/web/lib/ai-command-stream.ts:1237-1382 | which calls decide whether the metadata is written, and what that does to the run record |
| RunProperties.SavedTextIsShownText | apps/web/lib/ai-command-stream.ts:1723-1725 | every message saved holds the text yielded so far, cut at 20,000 characters and trimmed, or the notice of its status if that is empty |
| RunTable.RunFollowsTable | apps/web/lib/ai-command-stream.ts:1650-1935 | every run, as a decision table over the first terminal event and the failing calls: whether it throws, the events yielded, the attempts to close it with their statuses, and the statuses and text of the messages saved |
| RunTable.FailedRecordsLeaveNoneReady | apps/web/lib/ai-command-stream.ts:1383-1390 | a completion whose records fail leaves no artifact recorded as ready, if that call works |
| RunTable.OnlyCompletionsStore | apps/web/lib/ai-command-stream.ts:1726-1734 | a run without a completion never touches the store |
| RunFiles.FilesAreKeptOrReleasedExactly | apps/web/lib/ai-command-stream.ts:1090-1431 | every completion whose final deletes work keeps its files or releases each exactly as often as it was stored, whatever else fails, if and only if no reference id repeats |
| RunFiles.NeverOverReleased | apps/web/lib/ai-command-stream.ts:604-627 | with distinct ids no file is released more often than it was stored, whatever fails, the final deletes included |
| RunFiles.PreparedHolds | apps/web/lib/ai-command-stream.ts:495-602 | what a run's preparation adds to the store |
| RunFiles.CompletedRunRecordsFilesExactly | apps/web/lib/ai-command-stream.ts:1293-1342 | every run that ends completed has recorded all its stored files as ready, in order, if and only if no reference id repeats |
| RunFiles.ExecutedToolHasNoFile | apps/web/lib/ai-command-stream.ts:1749-1757 | when an executed workspace tool call makes the run skip the artifact records, no provider file is stored |
| RunFiles.RepeatedIdLosesAFile | apps/web/lib/ai-command-stream.ts:1296-1298 | for any references with a repeated id, a run in which every call works ends completed, has stored a file and has no ready record of it |
| RunFiles.RepeatedIdReleasesTooMuch | apps/web/lib/ai-command-stream.ts:1383-1428 | and one whose packet fails releases a file once more than it stored it |
| SourceLinks.FirstSeenIsFirstAppearance | apps/web/lib/ai-command-stream.ts:327-349 | the reference order lists the same URLs, ordered by first appearance |
| SourceLinks.SourceBoardForResult | apps/web/lib/ai-command-stream.ts:327-349 | the two map loops of the source board |
| SourceLinks.OrderedSourceLinks | apps/web/lib/ai-command-stream.ts:414-426 | the map loop of the links and its cut at thirty |
| SourceLinks.DeduplicationsAgree | apps/web/lib/ai-command-stream.ts:327-349 | both list the URLs once in first-appearance order, the links being the first thirty |
| SourceLinks.WhichSourceIsKept | apps/web/lib/ai-command-stream.ts:331-348 | the board shows the last web source of a URL, the links the first source |
| SourceLinks.LinksShowTheirFirstSource | apps/web/lib/ai-command-stream.ts:414-426 | each of the at most thirty links shows the id, title and URL of the first source with its URL |
| ConversationHistory.SelectTurns | apps/web/lib/ai-command-stream.ts:781-811 | which of the last twenty messages are eligible, and their collapsed and cut contents |
| ConversationHistory.CollapsedIsWords | apps/web/lib/ai-command-stream.ts:795-795 | collapsing and trimming leave the words of a text with one space between them |
| ConversationHistory.SelectedExactly | apps/web/lib/ai-command-stream.ts:781-811 | the turns selected are, in order and by their places, exactly the user's and the permitted assistant's messages among the last twenty whose words, cut at 1,000 characters, are non-empty and safe |
| ConversationHistory.KeepNewest | apps/web/lib/ai-command-stream.ts:812-821 | the budget loop from the newest turn back |
| ConversationHistory.AuthorizedHistory | apps/web/lib/ai-command-stream.ts:766-822 | selection followed by the budget |
| ConversationHistory.BudgetIsExact | apps/web/lib/ai-command-stream.ts:812-821 | the total kept is exactly the smaller of the budget and all turns |
| ConversationHistory.KeptAreNewest | apps/web/lib/ai-command-stream.ts:812-821 | the newest turns in order, only the oldest of them cut, to a prefix |
| ConversationHistory.BudgetIsUnique | apps/web/lib/ai-command-stream.ts:812-821 | these two properties determine the history |
| ConversationHistory.HistoryExactly | apps/web/lib/ai-command-stream.ts:766-822 | the history sent is, and nothing else is, the newest of those turns up to 6,000 characters, only the oldest cut |
| ConversationHistory.SentTurnsMayBeSent | apps/web/lib/ai-command-stream.ts:781-821 | every turn sent comes from such a message, an assistant's only from a permitted one |
| RequestProtocol.Workspace.BeginRequest | apps/web/components/ai-command-motion-workspace.tsx:1161-1173 | aborts the controller held, takes the next generation and becomes busy |
| RequestProtocol.Workspace.FinishRequest | apps/web/components/ai-command-motion-workspace.tsx:1179-1183 | only the current request clears the controller and the busy flag |
| RequestProtocol.Workspace.ReserveMessageRequest | apps/web/components/ai-command-motion-workspace.tsx:1185-1202 | chains a turn to the promise the queue ends with |
| RequestProtocol.Workspace.Navigate | apps/web/components/ai-command-motion-workspace.tsx:1721-1748 | a request without a reservation begins |
| RequestProtocol.Workspace.SendMessage | apps/web/components/ai-command-motion-workspace.tsx:1583-1601 | begins a request and queues its reservation in one step |
| RequestProtocol.Workspace.TakeTurn | apps/web/components/ai-command-motion-workspace.tsx:1186-1196 | a queued turn fetches only if mounted and not aborted |
| RequestProtocol.Workspace.ContinueAfterReservation | apps/web/components/ai-command-motion-workspace.tsx:1602-1635 | only the current request resets the message and opens its stream |
| RequestProtocol.Workspace.ApplyStreamEvent | apps/web/components/ai-command-motion-workspace.tsx:1427-1497 | events of any other generation change nothing |
| RequestProtocol.Workspace.HandleEvent | apps/web/components/ai-command-motion-workspace.tsx:1672-1693 | the stream handler, with the unguarded status of an error event, after which it throws |
| RequestProtocol.Workspace.Remove | apps/web/components/ai-command-motion-workspace.tsx:1549-1557 | only the current request takes the message down |
| RequestProtocol.Workspace.CatchError | apps/web/components/ai-command-motion-workspace.tsx:1700-1718 | the catch block sets a status for the current request, then the request finishes |
| RequestProtocol.Workspace.StopGeneration | apps/web/components/ai-command-motion-workspace.tsx:1825-1833 | aborts the request held, unless idle or confirming |
| RequestProtocol.Workspace.Unmount | apps/web/components/ai-command-motion-workspace.tsx:789-795 | leaves the page: a new generation, the request aborted |
| RequestRuns.Reachable | apps/web/components/ai-command-motion-workspace.tsx:1161-1202 | every interleaving keeps the protocol's invariant |
| RequestRuns.BusyExactly | apps/web/components/ai-command-motion-workspace.tsx:1161-1183 | while mounted, busy holds exactly while the newest request has not reached its finally |
| RequestRuns.ReservationsAreSerial | apps/web/components/ai-command-motion-workspace.tsx:1185-1202 | reservation fetches start in submission order and at most one is unsettled |
| RequestRuns.QueueProgresses | apps/web/components/ai-command-motion-workspace.tsx:1185-1202 | while a turn waits, a turn can be taken or a fetch is open |
| RequestRuns.SupersededNeverSends | apps/web/components/ai-command-motion-workspace.tsx:1186-1196 | a request superseded, aborted or left before its turn never sends its reservation |
| RequestRuns.StoppedNeverSends | apps/web/components/ai-command-motion-workspace.tsx:1825-1833 | stopping the current request before its turn keeps its reservation from ever being sent |
| RequestRuns.CurrentUntilReplaced | apps/web/components/ai-command-motion-workspace.tsx:1175-1177 | a current request stays current exactly until the next request begins or the page is left |
| RequestRuns.SupersededForGood | apps/web/components/ai-command-motion-workspace.tsx:1175-1177 | a request that is no longer current never becomes current again |
| RequestRuns.OnlyTheCurrentRequestWrites | apps/web/components/ai-command-motion-workspace.tsx:1427-1453 | the text on screen changes only by a reset, a removal, or a delta of the current request appended to its own message |
| RequestRuns.ShownIsWhatWasAccepted | apps/web/components/ai-command-motion-workspace.tsx:1427-1497 | from its reset on a message is the in-order concatenation of the events accepted for it |
| RequestRuns.CompletedTextIsTheStreams | apps/web/components/ai-command-motion-workspace.tsx:1668-1697 | when the stream of the current request has ended, the text shown is that of the whole response body, for any chunking within the limits |
| RequestRuns.ShownIsAPrefix | apps/web/components/ai-command-motion-workspace.tsx:1668-1697 | at every moment, whatever ends the stream, the text shown is a prefix of the body's text |
| RequestHistory.StatusIsTheLastWord | apps/web/components/ai-command-motion-workspace.tsx:1427-1497 | in every run the status shown is the last word on it: of the reset, of an event of the current request, of an error event, of its failure or of a stop; an end is partial if and only if there is text |
| RequestHistory.AbortedExactly | apps/web/components/ai-command-motion-workspace.tsx:1825-1833 | while the page is mounted the newest request is aborted if and only if it was stopped, not while confirming, before it finished |
| RequestHistory.StreamsAreReserved | apps/web/components/ai-command-motion-workspace.tsx:1602-1635 | a message streams only if its reservation was answered |
| RequestHistory.UndisturbedRequestShowsItsStream | apps/web/components/ai-command-motion-workspace.tsx:1583-1720 | a request left alone sends its reservation, opens its stream, shows all that the stream delivers and is then no longer busy |
| WorkspaceHistory.History.RecordWorkspaceFrame | apps/web/components/ai-command-motion-workspace.tsx:1008-1019 | recording refines the zipper: nothing for the present frame, otherwise the present moves to the past and the future is dropped |
| WorkspaceHistory.History.WorkspaceBack | apps/web/components/ai-command-motion-workspace.tsx:1058-1066 | one step back on the zipper, index in range, and the frame shown |
| WorkspaceHistory.History.WorkspaceForward | apps/web/components/ai-command-motion-workspace.tsx:1068-1076 | one step forward on the zipper, index in range, and the frame shown |
| WorkspaceHistory.NeighboursAlwaysDiffer | apps/web/components/ai-command-motion-workspace.tsx:1012-1014 | in every run neighbouring frames differ in id or path |
| WorkspaceHistory.ForwardsUndoBacks | apps/web/components/ai-command-motion-workspace.tsx:1058-1076 | any number of forwards undoes as many backs |
| WorkspaceHistory.BacksReach | apps/web/components/ai-command-motion-workspace.tsx:1058-1066 | k backs show the frame k places earlier and keep what they passed |
| WorkspaceHistory.RecordingThePresentChangesNothing | apps/web/components/ai-command-motion-workspace.tsx:1013-1013 | recording the present frame again can be left out of any run |
| WorkspaceHistory.BackAndForwardChangesNothing | apps/web/components/ai-command-motion-workspace.tsx:1058-1076 | going back and forward again can be left out of any run |
| WorkspaceHistory.ForwardAndBackChangesNothing | apps/web/components/ai-command-motion-workspace.tsx:1058-1076 | going forward and back again can be left out of any run |
| WorkspaceHistory.RecordingDropsTheForwardFrames | apps/web/components/ai-command-motion-workspace.tsx:1011-1014 | a different frame recorded after k backs drops exactly the k forward frames |
| WorkspaceHistory.RecordedIsReached | apps/web/components/ai-command-motion-workspace.tsx:1008-1019 | a recorded frame's path and artifact id are shown after any number of backs and as many forwards |
| AgentHierarchy.ReportsInOrder | apps/web/lib/digital-workforce.ts:102-110 | the direct reports are the listed ones, each once, in name order, and in list order where names tie |
| AgentHierarchy.ReportsExtend | apps/web/components/digital-workforce-hierarchy.tsx:27-28 | the recursion descends from a node exactly to the nodes that prolong its chain of reports |
| AgentHierarchy.RecursionEndsExactly | apps/web/components/digital-workforce-hierarchy.tsx:27-61 | on any data with distinct ids the depth of the recursion is bounded if and only if no reports lead from the empty id back to it |
| HierarchyRendering.ShownExactly | apps/web/components/digital-workforce-hierarchy.tsx:18-62 | on any data with distinct ids: rendering ends and shows every node once, or never if it is on or below a supervisor cycle, if and only if no agent would be shown both as a root and under the empty id |
| HierarchyRendering.CycleOrRoot | apps/web/components/digital-workforce-hierarchy.tsx:18-24 | a node is on or below a supervisor cycle if and only if its chain reaches no root |
| HierarchyRendering.ShownOncePerRoot | apps/web/components/digital-workforce-hierarchy.tsx:27-61 | in general a node is shown once for each root a chain leads down from |
| HierarchyRendering.IndentedByRank | apps/web/components/digital-workforce-hierarchy.tsx:27-61 | every item shows a listed node, as deep as the chain it was reached by is long |
| HierarchyOrder.DocumentOrder | apps/web/components/digital-workforce-hierarchy.tsx:18-62 | the top items are roots, every other item is nested in the item of its supervisor, and siblings stand in name order, and in list order where names tie |
| ScrollPositions.ScrollMemory.RememberPdfScrollPosition | apps/web/components/application-pdf-viewer.tsx:26-34 | delete, set and the eviction loop move the source to the end and keep the newest forty |
| ScrollPositions.RemembersTheMostRecent | apps/web/components/application-pdf-viewer.tsx:23-34 | after any trace the entries are in recency order with their last values raised to zero, and all that was forgotten is older |
| ScrollPositions.KeptExactly | apps/web/components/application-pdf-viewer.tsx:23-34 | a source is kept if and only if fewer than forty distinct sources were remembered after it |
| WorkspacePathLaws.SurroundingsAreIgnored | apps/web/lib/ai-command-workspace-paths.ts:135-182 | white space, trailing slashes, a query or a fragment around a returned path change nothing within the length limit |
| WorkspacePathLaws.ParseIsIdempotent | apps/web/lib/ai-command-workspace-paths.ts:135-182 | parsing a returned path gives the same result |
| WorkspacePathLaws.ParentsAreAccepted | apps/web/lib/ai-command-workspace-paths.ts:70-182 | every parent path is accepted, canonical and has fewer segments |
| WorkspacePathLaws.ParseDecorated | apps/web/lib/ai-command-workspace-paths.ts:58-64 | a canonical path parses as its segments whatever surrounds it |
| WorkspaceRoutes.ParsesExactly | apps/web/lib/ai-command-workspace-paths.ts:58-182 | a value is accepted if and only if it has at most 2,048 characters and is, inside white space, a path of slash-separated segments that name a page, and perhaps a query or fragment; the result is that page |
| WorkspaceRoutes.SegmentsExactly | apps/web/lib/ai-command-workspace-paths.ts:34-182 | the segments accepted, with view, record and parent, are exactly the table of pages |
| WorkspaceRoutes.UuidExactly | apps/web/lib/ai-command-workspace-paths.ts:32-32 | a UUID is five groups of hexadecimal digits with version 1 to 8 and variant 8, 9, a or b |
| WorkspaceRoutes.ArtifactsOpenTheirPage | apps/web/lib/ai-command-workspace-paths.ts:184-236 | the path of an artifact opens the page meant for its type, on its record |
| WorkspacePathLaws.ArtifactPathsParseBack | apps/web/lib/ai-command-workspace-paths.ts:184-236 | an artifact's path parses back to itself if and only if its id is unused, missing, empty or a UUID |
| WorkspacePathLaws.AbsoluteUrlsAreRefused | apps/web/lib/ai-command-workspace-paths.ts:139-141 | no URL with an origin is accepted, so the origin is never cut off |
| BarChart.NumericSeries | apps/web/components/workspace-renderer.tsx:1011-1021 | at most eight series, each of one to 64 points |
| BarChart.LayOutGroup | apps/web/components/workspace-renderer.tsx:1123-1148 | the bars of one group, stacking as it goes |
| BarChart.LayOutBars | apps/web/components/workspace-renderer.tsx:1122-1150 | the bars of all groups |
| BarLayout.BarsStayInside | apps/web/components/workspace-renderer.tsx:1110-1153 | every bar of a validated payload lies between 54 and 594 across and 54 and 238 down |
| BarLayout.NoTwoBarsOverlap | apps/web/components/workspace-renderer.tsx:1122-1134 | no two bars overlap, in one group or in two |
| BarLayout.StacksAreContiguous | apps/web/components/workspace-renderer.tsx:1133-1134 | stacked bars stand on one another, grouped bars on the axis |
| BarLayout.EveryPointHasItsBar | apps/web/components/workspace-renderer.tsx:1122-1128 | there is a bar for each point and for nothing else, of its height |
| BarLayout.StacksFitExactly | apps/web/components/workspace-renderer.tsx:1125-1128 | stacks of n series fit if and only if n is at most 184 |
| BarGeometry.SeriesExactly | apps/web/components/workspace-renderer.tsx:997-1021 | the series drawn are exactly those with a number among the first eight entries, of the numbers among their first 64 records in order, or else the payload's own |
| BarGeometry.ScalesExactly | apps/web/components/workspace-renderer.tsx:1112-1117 | the maximum is the largest value and at least one, the count that of the longest series |
| BarGeometry.BarsAreDrawn | apps/web/components/workspace-renderer.tsx:1122-1134 | every bar stands where its group, its series and the bars below it put it, as wide as its slot allows and as tall as its value asks |
| SourceRows.WorkspaceSourceRows | apps/web/components/workspace-renderer.tsx:1649-1665 | the merging loop over the keyed map |
| SourceRows.RowsAreCombined | apps/web/components/workspace-renderer.tsx:1649-1665 | one row per key in first-appearance order, each field from the first row with that key that has it |
| JobLoop.Jobs.Cycle | scripts/cpl-development-runtime.ts:235-257 | begins a job cycle unless stopped |
| JobLoop.Jobs.StartJobs | scripts/cpl-development-runtime.ts:261-263 | only the first start begins a cycle |
| JobLoop.Jobs.StopJobs | scripts/cpl-development-runtime.ts:264-272 | the first stop sets the flag, clears the timer and awaits the running cycle |
| JobLoop.Jobs.FireTimer | scripts/cpl-development-runtime.ts:254-254 | a timer that fires runs a cycle |
| JobLoop.Jobs.EndCycle | scripts/cpl-development-runtime.ts:239-255 | the state a cycle leaves, and the next timer unless stopped |
| JobLoop.Jobs.ResumeStop | scripts/cpl-development-runtime.ts:268-269 | the worker is closed after the awaited cycle |
| JobLoop.JobsAreSerial | scripts/cpl-development-runtime.ts:234-275 | never two cycles or timers at once, and exactly one of either while started and not stopped |
| JobLoop.NothingBeginsAfterStop | scripts/cpl-development-runtime.ts:236-266 | after a stop no cycle begins and no timer is set, ever |
| JobLoop.WorkerClosedOnce | scripts/cpl-development-runtime.ts:264-272 | the worker is closed at most once and no cycle is in flight then or later |
| JobLoop.StopGetsThrough | scripts/cpl-development-runtime.ts:264-272 | closing waits for at most the one cycle in flight |
| JobLoop.StateIsOfTheLastCycle | scripts/cpl-development-runtime.ts:239-253 | the job state is that of the last cycle to end: failed before retried before skipped before completed |
| TaskForm.Form.ChangeCompany | apps/web/components/task-create-form.tsx:91-107 | aborts the request held, clears the fields and asks for the contacts of the new company |
| TaskForm.Form.LoadContacts | apps/web/components/task-create-form.tsx:50-89 | an answer that is stale, malformed, for another company or unauthorised |
| TaskForm.Form.ChooseContact | apps/web/components/task-create-form.tsx:228-231 | the contact select |
| TaskForm.NoStaleContacts | apps/web/components/task-create-form.tsx:50-106 | in every interleaving contacts are offered only if the latest request was made for the selected company and answered with that company and those contacts, and the chosen one is none or one of them |
| TaskForm.AnswerDecides | apps/web/components/task-create-form.tsx:50-89 | once the live request is answered the form shows exactly that: the contacts of a body for the selected company, an error without contacts for any other body or failure, and loading with a sign-in for an expired session |
| TaskForm.CompanyIsLastSelected | apps/web/components/task-create-form.tsx:91-95 | the form is about the company selected last |
| TaskForm.ChoiceStays | apps/web/components/task-create-form.tsx:228-231 | a contact chosen stays chosen whatever is answered until another choice or company |
| TaskForm.LateAnswersAreDropped | apps/web/components/task-create-form.tsx:78-82 | an answer to any request but the live one changes nothing in the form |
| TaskForm.LoadingUntilAnswered | apps/web/components/task-create-form.tsx:56-59 | the field is loading exactly until the live request is answered, unless sign-in expired |

## Left out

- Bytes and text: one Dafny character stands for one UTF-16 code unit, and the decoder's output per
  read is a parameter, with its byte length independent of it.
- The status, content-type and body checks before the read loop, and the reader's cancellation and
  release.
- `JSON.parse`, the credential check and the permission checks, which are parameters of the members
  that use them.
- A consumer that abandons the server's generator early, which runs no completion code; the theorems
  are about runs that return or throw by themselves.
- The presentation packet's contents, usage figures and response ids: only whether those calls work
  matters.
- Expiry of stored files by retention cleanup.
- Reading the settings again before each release pass is one flag per pass.
- Starting a run: routing, authorisation, provider selection and `beginResponseRun`.
- LiveVoiceWebSearchAuthorization: a one-shot flag, which would only add an easy member.
- ResponseRun.RecordMetadata: writing the citations, the source board and the tool calls is one call
  that works or fails, because none of them changes the files or the status.
- RunFiles.FilesAreKeptOrReleasedExactly: is about the provider's files and not about the workspace
  PDF, which preparation may store under its own record.
- RequestProtocol.Workspace.Navigate: does not say what the other requests load, only when they begin
  and finish.
- Remounting the page, React's batching of state updates (a handler is one step) and all rendering;
  tool-proposal validation, uploads, narration and voice.
- SourceLinks.SourceBoardForResult: models the map of URLs, not the manifest built from it.
- The retrieval of `snapshotWorkspacePath`: a recorded frame comes with its path.
- Names inherited from `Object.prototype` that pass the `in` test on the path table.
- Line charts, donut arcs and IEEE rounding; chart arithmetic is over the reals.
- How a source row's fields are read from a payload.
- Submitting the task form, and its error messages.
- Job processing itself, and the database set-up of the local runtime.
- Roles, statuses and labels of agents in the tree beside their names and supervisors.
