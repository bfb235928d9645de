# Verified model of the DUTchmate evidence path

These modules model the part of the Device Core that must not lose, duplicate, reorder or half-write
UART evidence, and prove it against independent references. `dafny verify dfyconfig.toml` checks
everything.

**Crash-recoverable transactions** (`FileSystem`, `Transactions`, `LateRollback`). A disk maps names to inodes and
inodes to bytes, so hard-link backups behave as POSIX.1-2017 says: renaming a backup over a target
that is the same inode does nothing and leaves both names. Each system call is one step, persisted in
program order; an oracle lets any of them fail or crash, writes can be short, and a crash can come
between any two calls, inside recovery too. `Settles(disk, view)` says what a recovery would lead to;
every operation is proved to keep it, so a crash is just a place where an operation stops.

**Lines and frames** (`Splitting`, `LineBuffer`, `FrameStream`, `MonitorMatcher`, `MonitorEvidence`, `LogReplay`,
`ReplayViews`, `ReplayLines`, `MinHeap`). One theory of splitting a byte stream at newlines serves four stateful,
chunk-by-chunk programs. Each is a class with the source's fields whose methods are proved equal to a reference over
the whole history; what the reference's frames, matches, spans and flags mean is proved in terms of the bytes
received.

**Durable-tail pages** (`EvidenceTail`, `EvidencePages`, `EvidencePolls`). The journal is one sequence of records, four
streams hold its parts; the heap merge, the resumable offset vectors, rollover chains and the byte cap
are proved against it, while the store grows between and during calls; a client that follows
`next_cursor` gets everything, and one that invents a position gets the journal's own records or an error.

**Ownership and loss** (`Ownership`, `OwnershipOutcomes`, `ReleaseDrain`, `ReleaseStall`, `RuntimeExclusion`,
`LossAccounting`). Concurrent protocols are state machines for an unbounded number of threads, with lock-protected regions as atomic
steps; theorems are about every finite run. Loss accounting is a class proved equal to a reference
computed from the session's history.

**The serial adapter** (`SerialAdapter`, `AdapterInput`). One event loop: reader, serialized requests and one
consumer interleave at suspension points; everything that arrives is accounted for.

**Diagnostics** (`Diagnostics`). UTF-8 from bit patterns, the truncating loop, and the agreement of
service and client on what a diagnostic is.

## Where the code does less than one might expect

- A rollback that starts after the metadata was replaced restores logs and patterns first and metadata
  last. Interrupted in between, recovery keeps the new metadata beside the old evidence
  (`LateRollback.LateRollbackBreaks`, from every clean disk); `Transactions.RollbackBoundary` gives the
  exact condition.
- A manual release can wait for ever. If the source disconnects, the receive thread looks for a release before it
  records the disconnect; a release that begins in between waits for a drain which the receive thread, now waiting
  for a new source, never does (`ReleaseStall.StallHappens`). `ReleaseStall.FinishesExactly` gives the exact
  condition under which a release can be completed, `ReleaseStall.BegunFinishesExactly` the same when it begins.
- Within one connection, a device that restarts its counters lowers the recorded dropped bytes
  (`LossAccounting.RestartedCountersLower`); `LossAccounting.ReadingRaises` gives the exact condition.
- A service detail is rejected by the client when the detail was empty and the fallback code has
  control characters (`Diagnostics.LineFeedRejected`); `Diagnostics.EmittedDetailAccepted` gives the exact
  condition. The codes written out in `errors.py` have none; codes carried by exceptions pass through
  unchecked.

## Hypotheses

- Digests are injective, and a unit's new metadata bytes differ from the old ones where a theorem says
  which of the two views recovery chooses. Where they are equal, the theorem still gives one of the two.
- A unit's body appends only to logs it declared, replaces the pattern file only if declared, and
  replaces the metadata after announcing it.
- The journal's records decode, carry their own sequence number, and fit the record limit; the cursor
  codec returns what it encoded; file lengths are those of committed records.
- `EvidencePolls`: where progress is claimed, no projected record prints over 259996 bytes (the cap less
  the longest cursor and the envelope). The code's own limits keep to that: at most 32768 received bytes
  (`core/src/dutchmate_core/device_connection/parser.py:55`) or 1024 sent ones
  (`core/src/dutchmate_core/validation.py:33`) print as at most 43692 base64 characters and 196608 bytes
  of escaped text, which leaves 19696 bytes for the record's other fields, short strings and numbers.
  Without the bound, `EvidencePolls.StallsExactly` says when a page stalls.
- `Ownership`: an open that fails without saying that its cleanup is unconfirmed has left nothing open,
  as the idle worker assumes (`apps/service/src/dutchmate_service/backend_reconnect.py:460-476`).
- `ReleaseDrain`: `has_pending_events` is false only when the source has handed out all it received; a
  source without that attribute counts as drained
  (`core/src/dutchmate_core/evidence/recorder.py:851`).

## Model

| member | source | states |
|---|---|---|
| Transactions.RunEvidenceTransaction | core/src/dutchmate_core/session_store/transactions.py:114-137 | Crash atomicity: over every spread of errors and crashes (torn appends included) the disk afterwards recovers to all-old or all-new, and to all-new exactly when the metadata file already holds the new bytes; success means all-new, and a safe error means all-old without bookkeeping. Unless an error or crash was injected, it succeeds, clean and all-new; an unsafe error of a transaction that had begun needs two of them. The one exception, a rollback begun after the metadata was replaced, is handed over with the state it began in and the stage it reached |
| Transactions.RollbackBoundary | core/src/dutchmate_core/session_store/transactions.py:207-228 | The exact boundary of that exception: every stage of a rollback recovers to all-old or all-new if and only if the metadata was not yet replaced when it began or there is nothing to undo but the metadata |
| Transactions.MixedStageIsNeither | core/src/dutchmate_core/session_store/transactions.py:212-226 | The failing stage: stopped after logs and patterns are restored and before the metadata is, a late rollback that had evidence to undo recovers to neither the old nor the new view |
| LateRollback.LateRollbackBreaks | core/src/dutchmate_core/session_store/transactions.py:207-228 | The failing side is reached: from every clean disk, for every unit that appends something to one log and changes the metadata, the transaction's own calls lead to a late rollback that, interrupted after its first call, recovers to neither view but to the old logs under the new metadata |
| LateRollback.LateRollbackHappens | core/src/dutchmate_core/session_store/transactions.py:207-228 | A concrete new session and one received byte for which this happens |
| Transactions.EarlyStageSettles | core/src/dutchmate_core/session_store/transactions.py:207-228 | A rollback begun before the metadata was replaced can be cut short after any of its calls and still recovers to the old view |
| Transactions.IdleStageSettles | core/src/dutchmate_core/session_store/transactions.py:212-226 | A late rollback with nothing to undo but the metadata recovers to the old or the new view from every stage |
| Transactions.RollbackStages | core/src/dutchmate_core/session_store/transactions.py:207-238 | For any disk that can be rolled back and any number of rollback calls made, what has been restored so far and that the next call finds what it needs |
| Transactions.SettlesUnique | core/src/dutchmate_core/session_store/transactions.py:140-161 | A disk cannot recover to two different views, so all-old and all-new cannot be confused |
| Transactions.RecoverEvidenceTransaction | core/src/dutchmate_core/session_store/transactions.py:140-161 | From any disk that settles on a view, recovery stopped anywhere (error or crash) leaves a disk that settles on the same view; finished, it leaves exactly that view with no marker and no backup, and reports committed exactly when the marker was effective. It fails only for an injected error or crash, and is reported as unsafe exactly when a marker was present |
| Transactions.RecoverAcrossRestarts | core/src/dutchmate_core/session_store/transactions.py:140-161 | Re-entrant recovery: through any finite number of interrupted or failed recoveries the disk converges to the one view it settled on, without bookkeeping |
| Transactions.RollbackFiles | core/src/dutchmate_core/session_store/transactions.py:207-228 | The disk reached is a stage of the rollback; finished, it shows the old view without bookkeeping; begun before the metadata was replaced it always recovers to the old view; without an injected error or crash it finishes, so neither "shorter than its saved offset" nor "preimage unavailable" is ever raised |
| Transactions.RestoreBackup | core/src/dutchmate_core/session_store/transactions.py:267-275 | Restores the target from its backup if there is one (also when both names are one inode), else finds the target to be the preimage; it fails only for an injected error or crash |
| Transactions.TruncateTo | core/src/dutchmate_core/session_store/transactions.py:278-291 | Cuts one log back to its saved offset; the log is never shorter than that, so it fails only for an injected error or crash |
| Transactions.Cleanup | core/src/dutchmate_core/session_store/transactions.py:231-238 | Removes backups, then marker; stopped anywhere the disk still shows and settles on the same view, finished it is clean |
| Transactions.CleanupOrphanBackups | core/src/dutchmate_core/session_store/transactions.py:241-255 | Backups left without a marker are removed without changing the view, wherever the cleanup stops |
| Transactions.RestoreOrRemoveOrphan | core/src/dutchmate_core/session_store/transactions.py:258-264 | With the target present only the backup name disappears; with the target missing the target gets the backup's content and the backup name disappears; a failure changes nothing |
| Transactions.BeginEvidenceTransaction | core/src/dutchmate_core/session_store/transactions.py:164-204 | Resolves an earlier transaction first; done, every declared log, the metadata and the patterns can be undone to the current view; failing anywhere, which takes an injected error or crash, the disk still settles on that view, and a safe error means that no marker is left |
| Transactions.AppendOffsets | core/src/dutchmate_core/session_store/transactions.py:294-305 | Records each declared log, once, with its current size, and no other, and changes nothing on disk |
| Transactions.TakeBackups | core/src/dutchmate_core/session_store/transactions.py:183-190 | The hard links exist when done and, wherever it stops, no file shows anything different |
| Transactions.WritePreparation | core/src/dutchmate_core/session_store/transactions.py:182-191 | Backups, then the prepared marker: the disk is clean, partly backed up, or ready to be undone, never a marker without its backups |
| Transactions.EvidenceTransaction.PrepareMetadata | core/src/dutchmate_core/session_store/transactions.py:74-82 | The durable marker is either the old one or announces exactly the new metadata's digest with the same undo data; the metadata file is untouched; done means announced |
| Transactions.EvidenceTransaction.Commit | core/src/dutchmate_core/session_store/transactions.py:84-103 | Whatever fails while the committed marker is written or the bookkeeping is removed, the disk still shows and settles on the new view, and every error is reported as unsafe and takes two injected errors; without one, commit succeeds and leaves no bookkeeping; a body that never announced its metadata is refused with the disk unchanged |
| Transactions.EvidenceTransaction.Rollback | core/src/dutchmate_core/session_store/transactions.py:105-112 | The disk reached is a stage of the rollback, clean and all-old when done, recoverable to all-old if the metadata was not yet replaced; every error is reported as unsafe |
| Transactions.AppendEvidence | core/src/dutchmate_core/session_store/store.py:696-707 | The body's appends in order: done, the logs are the old ones with all data appended; stopped anywhere (torn writes included) they can still be undone and the metadata is still the old one |
| Transactions.WriteUnit | core/src/dutchmate_core/session_store/store.py:696-733 | Evidence, patterns, announced metadata, metadata: wherever it stops, the disk shows all-new if the marker is effective, else it can be undone; done means effective and all-new |
| Transactions.WriteSerialized | core/src/dutchmate_core/session_store/persistence.py:151-170 | Atomic replacement: whatever fails, the named file has all of the new content (exactly when the rename happened) or is untouched, and no other visible name changes |
| Transactions.AppendSerialized | core/src/dutchmate_core/session_store/persistence.py:173-195 | Whatever fails, the log is its old content followed by a prefix of the data; success appends all of it |
| Transactions.WriteAll | core/src/dutchmate_core/session_store/persistence.py:198-205 | Through short writes of any sizes, errors and crashes, the log is its old content followed by a prefix of the data; success writes all of it |
| FileSystem.ApplySound | core/src/dutchmate_core/session_store/persistence.py:151-205 | What every name reads after each system call on names, inodes and bytes, renaming one link of an inode over another included, and that only logs and temporary files are ever written in place |
| FileSystem.Disk.Call | core/src/dutchmate_core/session_store/persistence.py:151-205 | One system call is one atomic step that happens wholly or, on an error or crash, not at all |
| Splitting.FindNewlineIsFirst | core/src/dutchmate_core/uart_capture/line_buffer.py:116-118 | The newline found is one, and none stands before it; none found means there is none |
| Splitting.SplitSound | core/src/dutchmate_core/device_connection/stream.py:43-45 | Lines and rest join to the stream, each line has exactly one newline, at its end, and the rest has none |
| Splitting.SplitUnique | core/src/dutchmate_core/device_connection/stream.py:43-45 | That cut is the only one: any terminated lines followed by an unbroken rest are what splitting their join returns |
| Splitting.SplitAppend | core/src/dutchmate_core/device_connection/stream.py:43-45 | Splitting chunk by chunk equals splitting the whole: only the rest of what came before matters |
| LineBuffer.ItemsAreSplit | core/src/dutchmate_core/uart_capture/line_buffer.py:90-197 | The buffer's reference output is, one to one and in order, the newline split of the joined events, a line being oversized exactly when its bytes with newline exceed 65536 |
| LineBuffer.ChunkingIrrelevant | core/src/dutchmate_core/uart_capture/line_buffer.py:90-197 | Two divisions of one byte stream into events report the same lines: same count, same kind, same bytes or byte count |
| LineBuffer.ItemsExtend | core/src/dutchmate_core/uart_capture/line_buffer.py:90-197 | Feeding one more event keeps all earlier items and adds exactly those from the open line on |
| LineBuffer.BytesConserved | core/src/dutchmate_core/uart_capture/line_buffer.py:90-197 | Bytes of all finished lines, normal and oversized, plus the open line's are exactly the bytes fed |
| LineBuffer.SpanCutsExactly | core/src/dutchmate_core/uart_capture/line_buffer.py:116-197 | Cutting recorded events from the place of a stream byte to the place of a later one gives exactly the bytes between, over any number of events and for any event offset bases |
| LineBuffer.ItemsLocated | core/src/dutchmate_core/uart_capture/line_buffer.py:116-197 | Each reported line is about exactly its line of the split: its own span names the event, by index and offset, that holds its first byte, the event that holds its last one, and how many lines ended in that event before; it carries those bytes, or their number and that event's timestamp |
| LineBuffer.LocatedCuts | core/src/dutchmate_core/uart_capture/line_buffer.py:116-197 | Cutting the recorded events at the coordinates of such a line's own span gives exactly its bytes |
| LineBuffer.WholesAreShort | core/src/dutchmate_core/uart_capture/line_buffer.py:133-157 | The raw bytes of the normal lines are exactly the split lines of at most 65536 bytes, in order |
| LineBuffer.UartLineBuffer.FeedResult | core/src/dutchmate_core/uart_capture/line_buffer.py:90-197 | Returns exactly the lines and oversized descriptors the reference adds for this event, each with coordinates at which the recorded events hold it; pending stays within 65536 bytes; and the newly-oversized count balances the finished and active oversized lines |
| LineBuffer.UartLineBuffer.FlushResult | core/src/dutchmate_core/uart_capture/line_buffer.py:205-228 | Returns the open line exactly once, whole or oversized and unterminated, with the coordinates at which the recorded events hold it, or nothing when there is none; the buffer starts afresh |
| LineBuffer.UartLineBuffer.HasUnterminatedLine | core/src/dutchmate_core/uart_capture/line_buffer.py:70-74 | True exactly when the bytes fed do not end at a line boundary |
| LineBuffer.UartLineBuffer.FinishOversizedLine | core/src/dutchmate_core/uart_capture/line_buffer.py:238-260 | Returns the oversized line's coordinates and total and clears only the oversized fields |
| LineBuffer.UartLineBuffer.TakePiece | core/src/dutchmate_core/uart_capture/line_buffer.py:120-191 | The three branches of the loop body agree with extending the open line by a piece and, at a newline, closing it; the newly-oversized count balances |
| FrameStream.NdjsonStreamParser.Feed | core/src/dutchmate_core/device_connection/stream.py:33-76 | For every chunking, the messages returned so far and the kind of the first error are those of the whole stream parsed up to its first bad or over-65536-byte frame; nothing is produced after it, the first error stays, and at most 65535 bytes stay buffered |
| FrameStream.FrameBodyIsObject | core/src/dutchmate_core/device_connection/stream.py:79-93 | A line has a frame body if and only if it is that body or the body and one CR, where the body is non-empty, starts with an opening and ends with a closing brace and has no CR |
| FrameStream.FrameFate | core/src/dutchmate_core/device_connection/stream.py:47-55 | What becomes of a terminated line: over 65536 bytes it fails as too large with its size; an object's text with LF or CR LF goes to the JSON parser as it is; any other line fails as not being one object |
| FrameStream.ParseLines | core/src/dutchmate_core/device_connection/stream.py:47-62 | The parsing loop yields the decoded frames up to the first failing one, and its error |
| FrameStream.UpToFirstFailure | core/src/dutchmate_core/device_connection/stream.py:47-62 | What the reference means: message j is frame j decoded, all frames decode if there is no error, and the error is that of the first frame that does not |
| FrameStream.ParseFramesAppend | core/src/dutchmate_core/device_connection/stream.py:47-62 | Parsing a concatenation of frame lists is parsing the first and, unless it failed, the second |
| FrameStream.ChunkOutcome | core/src/dutchmate_core/device_connection/stream.py:43-76 | What one more chunk adds to the outcome of the whole stream, the over-long unterminated rest included |
| FrameStream.FailureIsFinal | core/src/dutchmate_core/device_connection/stream.py:36-37 | Once a stream has failed, no later bytes change its messages or the kind of its error |
| FrameStream.LongRestStaysLong | core/src/dutchmate_core/device_connection/stream.py:64-71 | Rejecting an over-long unterminated rest early is right: however it is continued, it stays over-long or becomes a too-large frame |
| MonitorMatcher.Matcher.Process | core/src/dutchmate_core/operations/monitor.py:229-269 | Under any batching of the evidence, returns exactly the first match, in completion order, of everything processed so far |
| MonitorMatcher.CursorLocal | core/src/dutchmate_core/operations/monitor.py:236-254 | The lines of the full stream are the ones before the cursor, the one straddling it if any, and the lines of exactly the bytes the matcher looks at |
| MonitorMatcher.MatchesFromCursorOn | core/src/dutchmate_core/evidence/recorder.py:569-576 | Started with the full-stream buffer's incomplete flag, the lines the matcher examines for a channel are exactly the lines of at most 65536 bytes that begin at or after the cursor |
| MonitorMatcher.CompletionsOfKey | core/src/dutchmate_core/operations/monitor.py:255-268 | Interleaved channels do not disturb each other: a channel's completed lines are those of its own evidence alone |
| MonitorMatcher.EligibleBytes | core/src/dutchmate_core/operations/monitor.py:236-254 | The bytes fed for a channel are exactly its bytes after the cut, wherever the cut falls |
| MonitorMatcher.FirstMatchIsFirst | core/src/dutchmate_core/operations/monitor.py:265-269 | The match reported is that of a completed line with no earlier matching line; none means no line matches |
| MonitorMatcher.CompletionsGrow | core/src/dutchmate_core/operations/monitor.py:232-269 | Later evidence never changes which lines were completed before, or their order |
| MonitorMatcher.FirstMatchStays | core/src/dutchmate_core/operations/monitor.py:265-269 | A match once found stays the answer however much evidence follows |
| MonitorMatcher.BestIsLeast | core/src/dutchmate_core/operations/monitor.py:276-284 | The chosen occurrence is real, no pattern occurs earlier in the line, and on a tie no condition listed before it does |
| MonitorMatcher.MatchIsExact | core/src/dutchmate_core/operations/monitor.py:271-327 | For a line, the match reported is at the least offset at which any condition occurs, of the condition listed first among those that occur there, with the line's source, span and size and the window of it that starts at the match or, if the line ends too soon, ends with the line; none is reported only when no condition occurs |
| MonitorMatcher.MatchIsUnique | core/src/dutchmate_core/operations/monitor.py:271-327 | No other value meets that description, so it determines the match |
| MonitorMatcher.FirstMatchMeans | core/src/dutchmate_core/operations/monitor.py:265-269 | The match over all evidence is, in these words, that of the first completed line in which a condition occurs |
| MonitorMatcher.FindIsFirst | core/src/dutchmate_core/operations/monitor.py:279-281 | The offset found is an occurrence and no earlier offset is; none found means there is none |
| MonitorMatcher.ExcerptCoversMatch | core/src/dutchmate_core/operations/monitor.py:285-327 | The excerpt is a window of bounded size that contains the whole match at the stated place, and it is marked truncated exactly when it is not the whole line; no match means no condition occurs |
| MonitorEvidence.LinesInEvidence | core/src/dutchmate_core/operations/monitor.py:236-268 | Every line the matcher examines is held by its channel's recorded evidence between the coordinates its span names, counted in the evidence itself also where only what follows the cut was fed, and its source is the evidence it ends in |
| MonitorEvidence.LimitedMeans | core/src/dutchmate_core/operations/monitor.py:236-264 | The processing-limited flag is up if and only if in some channel the dropped part of the line the cursor fell into, a line after it, or the open line is over 65536 bytes |
| MonitorMatcher.Matcher.TakeEvidence | core/src/dutchmate_core/operations/monitor.py:232-264 | One event completes exactly the lines the reference says, and the processing-limited flag is set exactly when an eligible or discarded line exceeded the bound |
| MonitorMatcher.Matcher.Discard | core/src/dutchmate_core/operations/monitor.py:236-254 | Drops bytes up to and including the first newline after the cursor, counts them across events, and leaves the other channels alone |
| MonitorMatcher.Matcher.MatchLines | core/src/dutchmate_core/operations/monitor.py:265-268 | The first match among the lines one event completed, in order |
| MinHeap.Push | core/src/dutchmate_core/session_store/log_replay.py:398-400 | `heappush`: still a heap, with exactly the one entry more |
| MinHeap.Pop | core/src/dutchmate_core/session_store/tail.py:100-101 | `heappop`: returns an entry none is less than, and leaves a heap of exactly the others |
| MinHeap.Replace | core/src/dutchmate_core/session_store/log_replay.py:402-403 | `heapreplace`: the root comes out, the new entry goes in, nothing else changes, still a heap |
| MinHeap.LeastOfAll | core/src/dutchmate_core/session_store/log_replay.py:402-402 | No entry of a heap is less than its root |
| LogReplay.RefinesSortAndTake | core/src/dutchmate_core/session_store/log_replay.py:385-406 | With distinct coordinates, keeping the newest N is exactly sorting everything and taking the last N |
| LogReplay.BoundedNewest.Add | core/src/dutchmate_core/session_store/log_replay.py:394-403 | Keeps the invariant that the heap holds the newest min(N, added) entries of everything added, and that kept plus omitted equals added |
| LogReplay.BoundedNewest.Values | core/src/dutchmate_core/session_store/log_replay.py:405-406 | The kept entries, sorted, are newest among all added; their number plus omitted is the number added |
| LogReplay.CompleteLinesSorted | core/src/dutchmate_core/session_store/log_replay.py:423-451 | With increasing event indices, replay meets complete lines in strictly increasing coordinates over all channels, so coordinates are distinct |
| LogReplay.CompleteLinesAreSplit | core/src/dutchmate_core/session_store/log_replay.py:432-451 | Per channel, the complete lines replay meets are the newline split of the channel's bytes without the over-long lines |
| LogReplay.NewestAreLast | core/src/dutchmate_core/session_store/log_replay.py:486-494 | The complete lines replay returns are the last N of all complete lines in order, and omitted is exactly the number before them |
| ReplayViews.ReplayIsDetermined | core/src/dutchmate_core/session_store/log_replay.py:486-494 | With increasing event indices all three results are fully determined: the complete lines are the last ones met, partial and oversized lines the last ones once sorted by coordinates |
| ReplayViews.NewestAreDetermined | core/src/dutchmate_core/session_store/log_replay.py:385-406 | The newest N of any entries with distinct coordinates are the last N of those entries sorted |
| ReplayViews.CoordinatesRise | core/src/dutchmate_core/session_store/log_replay.py:447-448 | In one channel a later line end has greater coordinates |
| ReplayViews.PartialsDistinct | core/src/dutchmate_core/session_store/log_replay.py:462-476 | Partial lines of all channels have distinct coordinates |
| ReplayViews.OversizedLinesSorted | core/src/dutchmate_core/session_store/log_replay.py:452-459 | Finished over-long lines are met in strictly increasing coordinates |
| ReplayViews.OversizedDistinct | core/src/dutchmate_core/session_store/log_replay.py:452-484 | Finished and open over-long lines together have distinct coordinates |
| ReplayViews.OversizedLinesAreSplit | core/src/dutchmate_core/session_store/log_replay.py:452-459 | Per channel, the finished over-long lines are those of the newline split, in order, with their sizes |
| ReplayViews.PartialsAreRests | core/src/dutchmate_core/session_store/log_replay.py:462-484 | Per channel, the partial line is the unterminated rest of the split, and an over-long rest is reported once, by its size |
| LogReplay.CoordinatesPresent | core/src/dutchmate_core/session_store/log_replay.py:447-448 | Replayed lines always carry every coordinate, so the required-coordinate checks never raise |
| ReplayLines.CompleteLineMeans | core/src/dutchmate_core/session_store/log_replay.py:432-451 | A complete line is marked as such, stands at its coordinates in its channel's records, is filed under the record it ends in and its line number there, and has that record's timestamp |
| ReplayLines.PartialLineMeans | core/src/dutchmate_core/session_store/log_replay.py:462-476 | A partial line is marked as such, stands at its coordinates in its channel's records, and has the timestamp of its channel's last record |
| ReplayLines.OversizedLineMeans | core/src/dutchmate_core/session_store/log_replay.py:452-459 | An over-long line's descriptor names its coordinates in its channel's records, is filed under the record it ends in, and has that record's timestamp |
| ReplayLines.OversizedPartialMeans | core/src/dutchmate_core/session_store/log_replay.py:477-484 | The same for an over-long line still open at the end |
| LogReplay.Channels.Feed | core/src/dutchmate_core/session_store/log_replay.py:431-459 | One record yields exactly the complete and oversized lines its own channel's history gives |
| LogReplay.Channels.FlushAll | core/src/dutchmate_core/session_store/log_replay.py:462-484 | At the end every channel, in order of first use, yields its open line exactly once |
| LogReplay.ReplayRecords | core/src/dutchmate_core/session_store/log_replay.py:409-494 | Each of the three results holds the newest N of all complete, partial and oversized lines of the whole prefix, sorted, with the exact omitted count; what those lines are, and that the result is unique, is in the rows around this one |
| EvidenceTail.JournalExists | core/src/dutchmate_core/session_store/tail.py:70-116 | Four streams that partition 0..n-1 in increasing order are the streams of one journal in sequence order |
| EvidenceTail.NextLine | core/src/dutchmate_core/session_store/tail.py:78-89 | At the end of the records below a sequence, `readline` returns the stream's next record whole, whatever was appended behind the committed length |
| EvidenceTail.LeastIsNext | core/src/dutchmate_core/session_store/tail.py:99-106 | The least of the four pending heads is the next sequence number's record |
| EvidenceTail.MergeAdvances | core/src/dutchmate_core/session_store/tail.py:100-111 | Taking it moves the offsets from the exact end vector of the records below q to that below q + 1, and refills the heap accordingly |
| EvidenceTail.StartMerge | core/src/dutchmate_core/session_store/tail.py:91-97 | Succeeds exactly when every offset is 0 or follows a newline; then every offset ends a committed record and the heap holds what each stream has next |
| EvidenceTail.TakeNext | core/src/dutchmate_core/session_store/tail.py:100-111 | From a valid state one turn returns record q with the exact position after it and never fails. From any state: what it returns is the journal's record of the expected number, and if the offsets after it are right, those before it were; it fails only as not contiguous |
| EvidenceTail.Merge | core/src/dutchmate_core/session_store/tail.py:98-111 | The loop returns the records in sequence order from the position on, up to the limit or the end, also from offsets that belong to no position; if it ends with the right offsets, it started from a valid position |
| EvidenceTail.Read | core/src/dutchmate_core/session_store/tail.py:70-116 | From a valid position: exactly the next min(limit, remaining) records, each with the exact end vector after it. From any position whatever: the records returned are the journal's, from its sequence number on; a read that stays short of its limit succeeds only from a valid position; beyond the tail and not at a boundary are refused, as such, exactly when they are; the evidence is never called corrupt |
| EvidenceTail.BoundaryEndsRecord | core/src/dutchmate_core/session_store/tail.py:91-95 | An offset behind a newline of a stream is the end of one of its records |
| EvidenceTail.PendingIsRecord | core/src/dutchmate_core/session_store/tail.py:78-89 | What is read behind such an offset is one of the stream's committed records, whole, and the offset is the end of the records before it |
| EvidenceTail.StepsBack | core/src/dutchmate_core/session_store/tail.py:100-111 | One record taken at arbitrary aligned offsets is the journal's record of its number; right offsets behind it mean right offsets before it |
| EvidenceTail.EndsWithNewline | core/src/dutchmate_core/session_store/tail.py:91-95 | A valid offset is 0 or follows a newline |
| EvidencePages.PagesAreLossless | core/src/dutchmate_core/session_store/tail.py:164-223 | For any cursors each of which stands some records after the one before, with the store growing and rolling over between them: what lies between them, followed by what is still ahead of the last, is exactly what is ahead of the first, every record once, in order |
| EvidencePolls.PollOnce | core/src/dutchmate_core/runtime.py:469-473 | One call with a cursor, whatever the store held at its openings, is a poll of the kind the next rows speak of |
| EvidencePolls.PollsDeliver | core/src/dutchmate_core/session_store/tail.py:164-223 | Following `next_cursor` over pages as `ReadEvidencePage` serves them delivers exactly the records between the first cursor and the last one returned, in order, none twice, none skipped |
| EvidencePolls.EverythingIsDelivered | core/src/dutchmate_core/session_store/tail.py:164-223 | Every record is visited: if no projected record is over the size bound, as many polls as there were records ahead deliver all of them, each once and in order, whatever is added meanwhile |
| EvidencePolls.PollsProgress | core/src/dutchmate_core/session_store/tail.py:199-223 | Under the same bound every poll delivers a record until everything committed at the first poll has been delivered |
| EvidencePolls.StallsExactly | core/src/dutchmate_core/session_store/tail.py:202-209 | A page that has candidates delivers none of them if and only if the next record alone would print over the byte cap; then the same cursor comes back |
| EvidencePolls.SmallNeverStalls | core/src/dutchmate_core/session_store/tail.py:202-209 | With records under the size bound a page that has candidates delivers at least one |
| EvidencePolls.RefusedAfterAll | core/src/dutchmate_core/session_store/tail.py:213-221 | A followed cursor is refused only as expired, and only when everything committed at the first poll has been delivered |
| EvidencePolls.DeliveryHappens | core/src/dutchmate_core/session_store/tail.py:164-223 | The theorems are not empty: a store, a codec and a poll that meet all their hypotheses and deliver a record |
| EvidencePolls.RefusalHappens | core/src/dutchmate_core/session_store/tail.py:213-221 | And a poll that is refused: behind the last record of an ended session while another is the newest |
| EvidencePages.ReadEvidencePage | core/src/dutchmate_core/session_store/tail.py:164-223 | From a valid cursor the page's records are the next ones ahead of it across rollover successors, its cursor is the place after them, records plus omitted stay within the limit and fall short of it only when nothing more was committed; printed it fits the byte cap, and with one more of the omitted records it would not. Without candidates it is refused, as expired, if the last session opened is neither the newest one nor active, and served, with the cursor in that session, if not. A cursor is refused as expired when its session is not stored, and as unreadable when it is beyond the tail or not at a record boundary. Without a cursor: the end, as it then was, of the last session of the tail session's chain. Undecodable cursors are refused |
| EvidencePages.ExpiresExactly | core/src/dutchmate_core/session_store/tail.py:213-223 | A valid cursor is refused if and only if the sessions opened held nothing from it on, there is a newest session, and the last one opened is neither that nor active in the store as it was at that opening; a page without candidates is served if and only if they held nothing and that is not so |
| EvidencePages.IdleIsUnique | core/src/dutchmate_core/session_store/tail.py:179-196 | The chain of sessions opened until none follows is determined by what the store held at each opening |
| EvidencePages.PageIsPage | core/src/dutchmate_core/session_store/tail.py:199-223 | Deferring records for size moves the cursor only past those delivered |
| EvidencePages.FollowingGrows | core/src/dutchmate_core/session_store/tail.py:181-196 | Growth of the store only adds behind what was already ahead of a place |
| EvidencePages.CursorStaysValid | core/src/dutchmate_core/session_store/tail.py:24-34 | A cursor stays valid, at the same place, however the store grows |
| EvidencePages.ReachesAhead | core/src/dutchmate_core/session_store/tail.py:181-196 | After reading k records, exactly the remaining ones are ahead, across rollover chains |
| EvidencePages.MovesAhead | core/src/dutchmate_core/session_store/tail.py:181-196 | The same for cursors, with the last record read being the one just before the new cursor |
| EvidencePages.VisitSession | core/src/dutchmate_core/session_store/tail.py:185-195 | One session's visit reads up to the room left, ends at its last committed record when there was room, and names a successor exactly when one is to be followed |
| EvidencePages.Collect | core/src/dutchmate_core/session_store/tail.py:179-196 | The loop over the rollover chain collects the records ahead in order; fewer than the limit only when nothing is ahead; none exactly when every session opened held nothing, and then the flag returned is the last one's; a valid cursor never meets the cycle error, and a cursor that the first session refuses meets that refusal |
| EvidencePages.AttachTail | core/src/dutchmate_core/session_store/tail.py:173-198 | Attaching without a cursor ends at the end, as it was when opened, of the last session of the given session's rollover chain, with nothing committed beyond it, and fails, as expired, exactly when that session is not stored |
| EvidencePages.ReadFrom | core/src/dutchmate_core/session_store/tail.py:178-223 | The same for one decoded cursor; for any cursor whatever, a page with candidates fits the byte cap |
| EvidencePages.ChainGoesOn | core/src/dutchmate_core/session_store/tail.py:181-196 | Each session opened on the way to the tail is stored and new to the chain, so neither the cycle error nor an expired one can occur; without a successor it is the tail, else the chain goes on to the successor |
| EvidencePages.FitRecords | core/src/dutchmate_core/session_store/tail.py:199-212 | The longest run of candidates whose printed page stays within the cap: it fits, and one more would not |
| EvidencePages.PrintedSize | core/src/dutchmate_core/session_store/tail.py:202-212 | The loop's size arithmetic (envelope plus records plus commas) is the length of the printed page, with an envelope of 60 bytes, the cursor, and the digits of the omitted count |
| EvidencePages.EmptyPageFits | core/src/dutchmate_core/session_store/tail.py:197-198 | A page without records fits the cap for every cursor and omitted count within their limits |
| LossAccounting.ReadingRaises | core/src/dutchmate_core/evidence/recorder.py:1281-1289 | Exactly when one more reading does not lower the recorded dropped bytes, as a condition on the counters before the call |
| LossAccounting.RestartedCountersLower | core/src/dutchmate_core/evidence/recorder.py:1287-1289 | A concrete run in which restarted device counters lower the count |
| LossAccounting.NeverFalls | core/src/dutchmate_core/evidence/recorder.py:1235-1328 | With monotone counters and no reset of the account, the count starts at the first snapshot's and never falls |
| LossAccounting.Latched | core/src/dutchmate_core/evidence/recorder.py:1290-1298 | Until the account is reset, reported loss stays reported under readings, replacements and records that carry it over |
| LossAccounting.LossIsLoud | core/src/dutchmate_core/evidence/recorder.py:1287-1298 | A connection with a positive loss has a reading that alone reports it |
| LossAccounting.TotalLossIsLoud | core/src/dutchmate_core/evidence/recorder.py:1287-1298 | A session with a positive loss has a connection whose readings report it |
| LossAccounting.AlwaysValid | core/src/dutchmate_core/backends/contracts.py:116-144 | Over every run, rollovers and replacements included, the integrity statement satisfies `UartIntegrity`'s own rule |
| LossAccounting.LossAccount.constructor | core/src/dutchmate_core/evidence/recorder.py:286-303 | The account starts as the reference of an empty history |
| LossAccounting.LossAccount.RecordOverflow | core/src/dutchmate_core/evidence/recorder.py:1235-1273 | The fields stay equal to the reference (opening count plus, per connection, the larger of counter growth and explicit total), rolled over or not; loss is reported and the integrity valid |
| LossAccounting.LossAccount.RecordStatus | core/src/dutchmate_core/evidence/recorder.py:1274-1328 | The same for a status event; the loss report stays latched within the session |
| LossAccounting.LossAccount.ReplaceSource | core/src/dutchmate_core/evidence/recorder.py:971-989 | The same for a replacement: in one session the count and statement carry over, in a new one they restart from the snapshot |
| LossAccounting.LossAccount.RollOver | core/src/dutchmate_core/evidence/recorder.py:1231-1233 | The same for a record that opened a new session and after which the account is reset: the statement restarts from the connection's snapshot |
| LossAccounting.LossAccount.CarryOver | core/src/dutchmate_core/evidence/recorder.py:731-738 | A connection-ownership record that opened a new session without a reset leaves the whole account as it is, still equal to the reference and valid |
| LossAccounting.LossAccount.ResetIntegrity | core/src/dutchmate_core/evidence/recorder.py:1498-1512 | All five fields restart from the snapshot, nothing else changes |
| Ownership.RunKeepsInv | apps/service/src/dutchmate_service/backend_reconnect.py:200-578 | Over every interleaving of idle worker, any number of release and reacquire threads, faults, and both closes, the ownership invariant holds |
| Ownership.OneAttempt | apps/service/src/dutchmate_service/backend_reconnect.py:200-226 | At most one release, reacquisition or reconnect attempt is in flight, and the flag names it |
| Ownership.OneLooseSource | core/src/dutchmate_core/evidence/recorder.py:705-729 | No two opened sources are both without a confirmed close |
| Ownership.OpensOnlyWhenClosed | apps/service/src/dutchmate_service/backend_reconnect.py:448-456 | While a candidate is being opened, the recorder has no source, every earlier source is confirmed closed, and no close has ever failed |
| Ownership.NoneOpenedAfterCloseFailure | apps/service/src/dutchmate_service/backend_reconnect.py:563-578 | After a failed close no candidate is ever returned again, and the failure stays known |
| Ownership.CandidateFate | apps/service/src/dutchmate_service/backend_reconnect.py:509-561 | Each candidate is returned once, and is then published exactly once or rejected exactly once or still held by the running attempt: never two of these, never none |
| Ownership.ClosedIsQuiet | apps/service/src/dutchmate_service/backend_reconnect.py:356-400 | After the coordinator's close has returned, no attempt is in flight but the one it was called from, if it was; nothing is ever published; no open begins, and only an open in whose midst close was called can still return its one candidate |
| Ownership.PublicationHappens | apps/service/src/dutchmate_service/backend_reconnect.py:402-446 | The theorems are not empty: a run in which the worker replaces a disconnected source and publishes the candidate |
| Ownership.CloseFailureHappens | apps/service/src/dutchmate_service/backend_reconnect.py:544-561 | A run in which a rejected candidate's close fails |
| Ownership.CloseFromInsideHappens | apps/service/src/dutchmate_service/backend_reconnect.py:382-397 | A run in which close, called from inside an open, returns before that open does |
| OwnershipOutcomes.PublishedMeans | core/src/dutchmate_core/evidence/recorder.py:957-994 | Publishing, by worker or manual thread, makes the candidate in hand, never published before, the recorder's source, connected, and no other source can still be open |
| OwnershipOutcomes.OnlyPublishingGivesSource | core/src/dutchmate_core/evidence/recorder.py:957-994 | No other step gives the recorder a source |
| OwnershipOutcomes.ReleasedMeans | core/src/dutchmate_core/evidence/recorder.py:767-780 | A journaled release ends released, without a source, and with every opened source confirmed closed |
| OwnershipOutcomes.DisconnectedMeans | core/src/dutchmate_core/evidence/recorder.py:1022-1050 | A reconnect that ran out of time ends disconnected, without a source, and with every opened source confirmed closed |
| OwnershipOutcomes.ReacquireFailedMeans | core/src/dutchmate_core/evidence/recorder.py:806-828 | A failed reacquire ends at rest with every opened source confirmed closed, or faulted; faulted if it cannot say that its candidate is closed |
| OwnershipOutcomes.RestIsQuiet | apps/service/src/dutchmate_service/backend_reconnect.py:402-446 | While the recorder is released or disconnected nobody opens the device or holds a candidate: automatic reconnection is suppressed |
| ReleaseDrain.DrainedBeforeReleased | core/src/dutchmate_core/evidence/recorder.py:740-780 | Without a fault, everything a source received before it was closed for release is journaled, in order, before its "released" record |
| ReleaseDrain.QuietAfterReleased | core/src/dutchmate_core/evidence/recorder.py:933-996 | Between "released" and the next "reacquire_succeeded" no receive record is journaled |
| ReleaseDrain.NothingDropped | core/src/dutchmate_core/evidence/recorder.py:1144-1205 | At every moment the journal holds exactly what the source handed out, in order, but for the one event in the receive thread's hand |
| ReleaseDrain.DrainedIsJournaled | core/src/dutchmate_core/evidence/recorder.py:844-856 | When a release is about to be journaled, its source is shut and everything it received is in the journal |
| ReleaseDrain.ReleaseHappens | core/src/dutchmate_core/evidence/recorder.py:740-780 | The theorems are not empty: a run in which an event arrives during the release, is journaled before "released", and the connection comes back |
| ReleaseStall.FinishesExactly | core/src/dutchmate_core/evidence/recorder.py:740-780 | A release in progress can still be completed, short of a fault or of closing, if and only if the receive thread has not looked past it: it is neither about to record nor waiting in a disconnect of the source to be drained |
| ReleaseStall.BegunFinishesExactly | core/src/dutchmate_core/evidence/recorder.py:1156-1164 | The same seen from the moment the release begins: a condition on where the receive thread then is |
| ReleaseStall.StaysFinishable | core/src/dutchmate_core/evidence/recorder.py:844-856 | A release that was not stalled when it began never becomes so: wherever any steps of any threads but closing lead it, it can still be completed |
| ReleaseStall.NeverFinishes | core/src/dutchmate_core/evidence/recorder.py:1343-1397 | Once stalled, no steps of any threads complete the release, short of a fault or of closing |
| ReleaseStall.StallHappens | core/src/dutchmate_core/evidence/recorder.py:766-766 | A run that stalls: the source disconnects, a release begins before that is recorded, and then its thread and the receive thread wait for each other; closing the recorder is the only step left |
| RuntimeExclusion.RunKeepsInv | core/src/dutchmate_core/runtime.py:287-315 | Over every interleaving of any number of threads, the locks, counters, lease and monitor table stay consistent |
| RuntimeExclusion.OneActor | core/src/dutchmate_core/runtime.py:1189-1203 | At most one thread is inside a section that may act on the device |
| RuntimeExclusion.OwnershipChangeIsAlone | core/src/dutchmate_core/runtime.py:287-315 | While connection ownership changes there is no counted mutation, no lease and no second change, and none of the monitors once they were waited for |
| RuntimeExclusion.OneLease | core/src/dutchmate_core/runtime.py:1280-1284 | At most one Interact lease exists, and the shared field names it |
| RuntimeExclusion.LeaseExcludesOthers | core/src/dutchmate_core/runtime.py:1205-1213 | While a lease is held every counted mutation is its owner's |
| RuntimeExclusion.AdmittedIsOwners | core/src/dutchmate_core/runtime.py:1194-1198 | While a lease is held every mutation newly admitted is its owner's |
| RuntimeExclusion.CountIsExact | core/src/dutchmate_core/runtime.py:1194-1203 | The counter is exactly the number of mutations in progress, all of the thread that holds the lock |
| RuntimeExclusion.ClosingIsFinal | core/src/dutchmate_core/runtime.py:366-422 | Once closing, no mutation is admitted and no monitor starts; the device is shut down with none of either left |
| RuntimeExclusion.NothingLeftBehind | core/src/dutchmate_core/runtime.py:287-315 | Once every thread is done, however its requests ended, both locks, the announcement, the counter and the Interact field are free |
| RuntimeExclusion.FreeAdmits | core/src/dutchmate_core/runtime.py:1189-1203 | Then, unless closing has begun, the next request to act on the device is admitted as soon as the recorder is ready |
| RuntimeExclusion.InteractHappens | core/src/dutchmate_core/runtime.py:1280-1328 | The theorems are not empty: a run in which an Interact is inside its own mutation while holding the lease |
| RuntimeExclusion.ChangeHappens | core/src/dutchmate_core/runtime.py:287-315 | And one in which ownership changes afterwards |
| SerialAdapter.RoutingHolds | core/src/dutchmate_core/backends/enhanced_serial.py:316-370 | Over every interleaving of reader, requests, timeouts, cancellations, write failures and close, outcomes, pending request and device answers fit together |
| SerialAdapter.ResponsesAreRouted | core/src/dutchmate_core/backends/enhanced_serial.py:253-269 | The k-th transmitted request, if it completes, returns the k-th response the device sent |
| SerialAdapter.FailureIsLast | core/src/dutchmate_core/backends/enhanced_serial.py:341-367 | A request that timed out, was cancelled or could not be written was the last: no later one is ever transmitted or completed |
| SerialAdapter.EventsConserved | core/src/dutchmate_core/backends/enhanced_serial.py:232-252 | The event invariant holds over every run, and the queue's capacity never changes |
| SerialAdapter.NothingLost | core/src/dutchmate_core/backends/enhanced_serial.py:379-413 | Events received, in the consumer's hand, drained, queued and awaiting admission are, in this order, exactly the events normalized so far; the queue stays within its capacity |
| SerialAdapter.DrainIsComplete | core/src/dutchmate_core/backends/enhanced_serial.py:453-464 | After close and drain, events received and drained, with a concurrent receive's one event between, are exactly all events, in order, and stay so |
| SerialAdapter.ErrorComesLast | core/src/dutchmate_core/backends/enhanced_serial.py:388-406 | When a receive raises the terminal error, every event that reached the queue has been returned or drained |
| AdapterInput.NoneSkippedEver | core/src/dutchmate_core/backends/enhanced_serial.py:181-285 | Over every run the messages acted on and those left in the batch are all that arrived, in order, unless the reader has stopped for good, at a first message that is no hello, at a message that is neither telemetry nor a response, or behind a response |
| AdapterInput.EventsArrive | core/src/dutchmate_core/backends/enhanced_serial.py:211-285 | Every event that arrives is received, held, drained, queued, awaiting admission or in the batch, in order; while the adapter is neither terminal nor failed in parsing none is missing |
| AdapterInput.ArrivedResponsesAreRouted | core/src/dutchmate_core/backends/enhanced_serial.py:253-269 | The k-th transmitted request, if it completes, returns the k-th response that arrived |
| AdapterInput.TerminalExactly | core/src/dutchmate_core/backends/enhanced_serial.py:181-370 | A step makes the adapter terminal if and only if it is a message the protocol does not allow there, a broken stream, a hello time-out, a failed, timed-out or cancelled request, or close |
| SerialAdapter.DrainHappens | core/src/dutchmate_core/backends/enhanced_serial.py:453-464 | The theorems are not empty: a run in which a request completes with its answer and a queued event is drained |
| Diagnostics.RoundTrip | core/src/dutchmate_core/diagnostics.py:30-36 | Decoding the encoding of any text without surrogates gives the text back (section 3 of RFC 3629) |
| Diagnostics.DecodesFront | core/src/dutchmate_core/diagnostics.py:34-39 | A whole encoded character in front decodes to itself, whatever follows |
| Diagnostics.PartFails | core/src/dutchmate_core/diagnostics.py:34-39 | A proper, non-empty part of an encoded character does not decode |
| Diagnostics.DecodePrefix | core/src/dutchmate_core/diagnostics.py:33-39 | Encoded text cut at any byte decodes if and only if the cut is between characters, and then to the characters before it |
| Diagnostics.DecodesExactly | core/src/dutchmate_core/diagnostics.py:34-39 | A byte string decodes to a character in front if and only if it starts with that character's encoding and the character is no surrogate: overlong forms and values out of range never decode |
| Diagnostics.FitIsLongest | core/src/dutchmate_core/diagnostics.py:31-39 | The characters kept are the longest whole-character prefix within the limit |
| Diagnostics.ProjectDiagnosticDetail | core/src/dutchmate_core/diagnostics.py:11-40 | The byte-dropping loop returns exactly the cleaned text's longest whole-character prefix within 1024 bytes, truncated exactly when something was cut, with the error cases for an empty fallback and for surrogates |
| Diagnostics.ProjectionMeans | core/src/dutchmate_core/diagnostics.py:11-40 | What the projection is, character by character: of a detail, tabs and line breaks become spaces, the other C0 and C1 controls replacement characters, all else stays; of a fallback, underscores become spaces; it is cut exactly when the next character would exceed 1024 bytes; refused exactly for an empty fallback, or for a surrogate in the text used |
| Diagnostics.AcceptsExactly | apps/mcp_server/src/dutchmate_mcp_server/service_client.py:386-398 | The client accepts a detail if and only if it is non-empty, control-free, encodable and within 1024 bytes |
| Diagnostics.EmittedDetailAccepted | apps/service/src/dutchmate_service/errors.py:185-202 | A detail the service emits is accepted by the client if and only if the given detail was non-empty or the part of the fallback code that fits the limit is control-free |
| Diagnostics.LineFeedRejected | apps/service/src/dutchmate_service/errors.py:185-202 | An input that fails: an empty detail under a fallback code of one line feed |

## Left out

- Text views of lines and excerpts (`text`, `excerpt_text`): lossy decoding of bytes that are modelled exactly.
- JSON, base64 and SHA-256 internals: decoding, projecting and cursor text are function parameters, the digest is an injective constructor; only the page envelope's size is printed out.
- Leftover temporary files after a crash, and disks that persist weaker than in program order.
- Symbolic links, permissions and non-regular files in the session directory.
- Transactions.RunEvidenceTransaction: a rollback begun after the metadata was replaced is not claimed atomic, because it is not; `Transactions.RollbackBoundary` states exactly when it is.
- The session store around a transaction and a snapshot (its locks, retention, rollover decisions and metadata contents): a unit is its appends, patterns and metadata bytes, in the order of `core/src/dutchmate_core/session_store/store.py:696-733`; a snapshot is streams, committed lengths and a successor, and a session without a directory is expired (`store.py:314-315`).
- Ownership.RunKeepsInv: how an open succeeds or fails is one of three outcomes (a candidate, nothing left open, cleanup unconfirmed); retry delays and deadlines are nondeterministic; a failed close and its record are one step; a second `close` that waits for the first is not a step.
- ReleaseDrain.DrainedBeforeReleased: runs without a fault only, as faults end the drain on purpose; line-boundary and segment records are not in its journal.
- RuntimeExclusion.RunKeepsInv: capability checks, GPIO invalidation and what a mutation does to the device are not modelled, only who may be doing it.
- SerialAdapter.NothingLost: one consumer, and no cancelled `receive_event`; frame parsing errors are a flag on a batch, the parser itself is `FrameStream`.
- Liveness: that threads which can go on do go on is not modelled; `ReleaseStall` says when a release can be completed at all, and nothing is claimed of other waits.
- The segment a stored event carries: it is sampled before the blocking read, and no theorem speaks of it.
- LogReplay.ReplayRecords: cutting the file into records and decoding them is a parameter, and with event indices that do not increase the order among entries with equal coordinates is left open.
- MonitorMatcher.Matcher.Process: calls after a match are not modelled, as the source's caller stops at the first match.
- EvidenceTail.Read: a read that reaches its limit may accept a position whose offsets are wrong for streams it did not get to, as the code does; the records it returns are right all the same. Files that break the journal format are outside the hypotheses.
- Real I/O (pyserial, asyncio transports, HTTP, MCP, command line), wall clocks and subprocesses.
- Profiles, GPIO validation, request schemas, retention, baselines, comparisons, prompts and reports: mostly single checks.
