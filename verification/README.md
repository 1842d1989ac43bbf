# Aizu: verified models of durable delivery, dispatch, retention and their satellites

Aizu moves agent events (a task finished, a question is waiting) from the machine where they happen to a
desktop that notifies its user. This project models the logic of that journey in Dafny and proves what it
is for: no event is lost silently, none is delivered twice, and every run ends where it should.

- A **source spool** (`spool.dfy`) gives events their sequence numbers and prunes old rows.
- A **bridge** (`bridge.dfy`) turns a live spool, emitted to and pruned by other processes between any two
  reads, into a stream of hello, event, gap, heartbeat and error frames.
- The **wire** (`framing.dfy`, `wire.dfy`) carries frames as bounded lines, cut into arbitrary chunks; the
  **stream validator** (`protocol.dfy`) accepts only streams that account for every sequence.
- The **remote consumer** (`remote.dfy`) persists each frame in the **desktop database** (`tables.dfy`,
  `desktop.dfy`); **direct ingestion** (`pipeline.dfy`) is a second path from spool to database.
- **Outbox dispatch** (`notification.dfy`, `dispatch.dfy`, `answers.dfy`, `drain.dfy`), **history maintenance**
  (`history.dfy`) and whole **runs** (`runs.dfy`, `journal.dfy`, `retries.dfy`, `replays.dfy`) work on that
  database.
- `agreement.dfy` (with `erasure.dfy`) relates the components: the two paths agree, and interrupted sessions
  add up to one uninterrupted session; `reopening.dfy` adds the session of a source that lost its pin.
- Four smaller cores stand alone: the hook configuration merge with its shell quoting (`quoting.dfy`,
  `hooks.dfy`), the bounded percent decoder (`percent.dfy`), the banner queue (`banner.dfy`) and the registry
  of system activations (`registry.dfy`).

Code that updates state in place is a class here, and loops are loops; each such method is proved equal to a
specification function on values, and the theorems are lemmas about those functions and about runs of them.
A database transaction is one atomic step. Identifiers and payloads are opaque, the payload digest is
injective, an instant is an integer. JSON reading and writing, UTF-8 validation, payload sizes, the clock and
the notifier's answers are parameters.

`dafny verify dfyconfig.toml` checks everything.

## Model

| member | source | states |
|---|---|---|
| `Spools.Spool.Emit` | crates/aizu-core/src/spool.rs:69-106 | once a day, or when the clock went back, the older rows are first brought within 30 days, 100,000 rows and 256 MiB or thinned by a full batch, on other days left alone; then one row is appended as given under the next sequence, or refused because the counter is full or a remaining row has the identifier |
| `Spools.Spool.Maintain` | crates/aizu-core/src/spool.rs:461-534 | the deletion loop with its running counters is exactly the specified batch; an invalid policy changes nothing |
| `Spools.EmitMaintainsOnceADay` | crates/aizu-core/src/spool.rs:69-106 | the same of every emit as a value: when maintenance runs, what it leaves, what is appended, and why an emit is refused |
| `Spools.PageIsNextRows` | crates/aizu-core/src/spool.rs:133-224 | on a sound spool a page is precisely the next retained rows in order, and no row is refused |
| `Spools.EveryPageIsAnswered` | crates/aizu-core/src/spool.rs:133-224 | any spool, sound or not, answers a read with the next rows up to the size asked for, or refuses it for a negative cursor, a size outside 1 to 10,000, or the first row beyond the watermark or of another source |
| `Spools.EverySnapshotIsAnswered` | crates/aizu-core/src/spool.rs:108-131 | a snapshot of any spool names source, oldest row and watermark, and is refused iff the newest row lies beyond the watermark |
| `Spools.BatchReportIsExact` | crates/aizu-core/src/spool.rs:461-534 | for any clock the reported counts and bytes are exact, "more required" implies a full batch was deleted, and its absence holds iff age, count and byte bounds all hold |
| `Spools.InnerBreakIsUnreachable` | crates/aizu-core/src/spool.rs:489-500 | the early exit inside the pruning loop never fires, although it compares with the untruncated cutoff |
| `Spools.BatchKeepsLogShape` | crates/aizu-core/src/spool.rs:461-560 | with insertion times nondecreasing, retention maps a contiguous suffix ending at the watermark to another one |
| `Spools.AgePruningKeepsShapeIff` | crates/aizu-core/src/spool.rs:536-560 | for any clock and every batch size, within the count and byte limits, the log shape survives a batch if and only if each expired row the batch reaches has only expired rows before it |
| `Spools.ExpiredFirstKeepsShape` | crates/aizu-core/src/spool.rs:461-560 | whatever the limits and the batch size, the log shape survives a batch when no unexpired row precedes an expired one |
| `Spools.SteppedBackClockLeavesHole` | crates/aizu-core/src/spool.rs:1427-1465 | concrete input, reached by two emits and a maintenance run: a clock stepped back between the emits leaves a hole at the tail |
| `Spools.NextEmitLeavesHoleInside` | crates/aizu-core/src/spool.rs:69-106 | one more emit turns that hole into one inside the log |
| `Events.RemovalTakesOneKey` | crates/aizu-core/src/terminal_activation.rs:90-97 | key by key: stripping takes aizu_terminal_activation and no other key or field; metadata left empty is dropped, and an event without the key comes back unchanged unless its metadata was empty |
| `Events.StrippedSameIff` | crates/aizu-core/src/remote.rs:316-320 | two events are equal once stripped iff they differ in that key alone |
| `Protocol.TilesAccountsOnce` | crates/aizu-core/src/protocol.rs:212-271 | a tiling stream accounts for each sequence of (after, cursor] by exactly one event or gap, and for no other |
| `Protocol.AcceptedStreamTiles` | crates/aizu-core/src/protocol.rs:142-271 | any stream a validator accepts tiles the range between its old and new cursor and starts with hello or is one error |
| `Protocol.AcceptedExactly` | crates/aizu-core/src/protocol.rs:142-271 | a frame is accepted iff it keeps its own ranges and lengths and is what the validator waits for; an accepted frame moves cursor, phase and owed gap accordingly |
| `Protocol.RefusalBlames` | crates/aizu-core/src/protocol.rs:142-271 | a refusal names the first broken rule, with the values that broke it |
| `Protocol.StreamOpens` | crates/aizu-core/src/protocol.rs:125-140 | a stream opens at a natural cursor only, and with nothing but a hello of the expected version or an error |
| `Protocol.BridgeStreamValidator.Accept` | crates/aizu-core/src/protocol.rs:142-152 | the in-place validator accepts exactly the specified frames, and a refused frame leaves it untouched |
| `Protocol.BridgeStreamValidator.AcceptFirst` | crates/aizu-core/src/protocol.rs:168-210 | before hello: version and identity checks in order, and the required gap computed from the announced range |
| `Protocol.BridgeStreamValidator.AcceptNext` | crates/aizu-core/src/protocol.rs:212-271 | while active: next sequence only, matching identity, the required gap first, gaps only from the cursor |
| `Framing.FrameDecoder.Push` | crates/aizu-core/src/protocol.rs:67-86 | the byte loop is the decoder specification, including the buffer it leaves behind on success and on error |
| `Framing.CleanEndIffTerminated` | crates/aizu-core/src/protocol.rs:67-97 | after any chunks that decode, the decoder stands at a frame boundary, where end of input is clean, iff the bytes are empty or end in a line feed |
| `Framing.AnyTwoChunkingsAgree` | crates/aizu-core/src/protocol.rs:67-97 | two ways of cutting the same bytes agree on success, frames, error and leftover; on success the frames are the parses of the terminated lines in order |
| `Framing.ChunkingDoesNotMatter` | crates/aizu-core/src/protocol.rs:67-86 | from any buffer, pushing the chunks one by one is pushing their concatenation, errors and leftover included |
| `Framing.DecodeIsLineByLine` | crates/aizu-core/src/protocol.rs:67-97 | decoding succeeds iff every terminated line parses and the unterminated tail still fits; the buffer then holds that tail, at most one byte over the limit |
| `Framing.EarlyLimitIsExact` | crates/aizu-core/src/protocol.rs:76-84 | the early limit refuses a line iff the line parser would refuse it on size, carriage returns included |
| `Framing.LineIsParsedIff` | crates/aizu-core/src/protocol.rs:326-364 | a line yields a frame iff, its end aside, it is not empty, holds at most 131,072 bytes and no line break, the reader understands it and the frame is well-formed; otherwise the first failing condition is reported |
| `Framing.SplitLinesIsFaithful` | crates/aizu-core/src/protocol.rs:326-342 | the reference splitting loses no byte and leaves no line feed inside a line |
| `Bridge.StreamBridge` | crates/aizu-cli/src/main.rs:756-844 | over every interleaving of emits and prunes: a validator started at the same cursor accepts every frame, cursors stay equal, events and gaps tile (after, cursor], and each frame is true of the very read it was written from, those reads being the supplied ones in order: a gap covers no row that read retained, an event is a row of that read without the activation key and with every other key; the stream greets in version 1, ends with code 2 only behind a true error frame and with code 0 only at the watermark; on a quiet spool it is the canonical one, exit 0 comes within as many turns as sequences are missing, and the loop never ends iff the newest rows are gone and the cursor is below the watermark |
| `Bridge.OpenStream` | crates/aizu-cli/src/main.rs:756-782 | hello, then the refusal of a cursor that is ahead or exactly the gap at the front of the log |
| `Bridge.TailHoleIsUnfinishable` | crates/aizu-cli/src/main.rs:783-843 | concrete input: two emits around a clock stepping back and one maintenance produce a sound spool on which the loop never ends from 0 |
| `Bridge.EmitGapIfNeeded` | crates/aizu-cli/src/main.rs:873-908 | declares exactly the lost front of the log, moves the cursor to its end, and skips no retained row |
| `Bridge.WritePage` | crates/aizu-cli/src/main.rs:795-818 | a page is written row by row with every hole declared before the event behind it |
| `Bridge.WriteError` | crates/aizu-cli/src/main.rs:846-871 | the terminal error frame is accepted and leaves the cursor where it was |
| `Bridge.SendNext` | crates/aizu-cli/src/main.rs:788-818 | the front gap and one page: output is only added, the front gap read from the first snapshot and everything behind it from the page, accepted, honest of that read, never beyond the page's watermark; on a quiet spool a short page was the last one |
| `Bridge.CloseTurn` | crates/aizu-cli/src/main.rs:820-871 | adds at most one frame, read from the second snapshot; ends the stream with code 2 iff identity or watermark no longer fit, saying which, with 0 iff caught up and not following; a heartbeat only when following |
| `Bridge.TakeTurn` | crates/aizu-cli/src/main.rs:783-843 | one turn: output is only added, each new frame accepted and honest of the snapshot or page of this turn it was read from, no false alarm under emits and prunes, a heartbeat exactly when following, caught up, due and the page was empty, an end only for a true reason, progress or completion on a quiet finishable spool, and no progress past a hole at the tail |
| `Tables.WatermarkIsCheckpoint` | crates/aizu-core/src/desktop.rs:1244-1264 | the maximum over events, tombstones, gaps and checkpoint that a re-pinned identity resumes from is its checkpoint |
| `Tables.WatermarkIsHighest` | crates/aizu-core/src/desktop.rs:1244-1264 | in any database, sound or not, the known watermark is the highest sequence that events, tombstones, gaps or the checkpoint speak of |
| `Tables.MatchingEmptyIffUntraced` | crates/aizu-core/src/desktop.rs:1266-1326 | no match is reported iff no durable trace of the source carries the sequence or the event identity |
| `Tables.DuplicateIsBehindCursor` | crates/aizu-core/src/desktop.rs:201-226 | an accepted duplicate never lies beyond the durable cursor |
| `Desktop.DesktopState.RegisterSource` | crates/aizu-core/src/desktop.rs:57-92 | the in-place transaction equals its specification: relabels or creates unpinned at 0, refuses invalid text |
| `Desktop.DesktopState.PinSource` | crates/aizu-core/src/desktop.rs:94-125 | the in-place transaction equals its specification: one owner per identity, resuming at the known watermark |
| `Desktop.DesktopState.ReplaceSource` | crates/aizu-core/src/desktop.rs:127-147 | the in-place transaction equals its specification, with the same owner check |
| `Desktop.DesktopState.ReleaseSourceIdentity` | crates/aizu-core/src/desktop.rs:158-171 | the in-place transaction equals its specification: unpinned, cursor 0, nothing else |
| `Desktop.DesktopState.IngestEvent` | crates/aizu-core/src/desktop.rs:174-278 | event row, outbox row, cursor and checkpoint are written together or not at all, with the error order of the source; an inserted event is pending from its reception on and carries the label, size, times and clock-skew verdict of this delivery |
| `Desktop.DesktopState.RecordGap` | crates/aizu-core/src/desktop.rs:281-356 | gap row, cursor and checkpoint are written together or not at all, with the duplicate rule of the source |
| `Desktop.DesktopState.FinishOutbox` | crates/aizu-core/src/desktop.rs:441-499 | only an active item is finished; state, reason, attempts and next attempt follow the outcome |
| `Desktop.DesktopState.DeferOutbox` | crates/aizu-core/src/desktop.rs:501-524 | only an active item is deferred, and only its next attempt moves |
| `Desktop.DesktopState.RequeuePermissionSuppressed` | crates/aizu-core/src/desktop.rs:526-540 | requeues and counts the denied items |
| `Desktop.DesktopState.MaintainHistory` | crates/aizu-core/src/desktop.rs:565-665 | the selection loop with its running byte total and the deletion loop equal the batch specification; what leaves does so for cause, each event that leaves has a tombstone of this batch, and a tombstone leaves only by age or rank |
| `Desktop.DesktopState.ClearHistory` | crates/aizu-core/src/desktop.rs:667-681 | terminates for any clock; keeps checkpoints and active items, only removes rows, reports exact totals, ends within all bounds, those of tombstones included, and leaves no settled event and no gap received by then |
| `Runs.EveryOpKeepsSound` | crates/aizu-core/src/desktop.rs:94-356 | every transaction, committed or failed, keeps: traces within checkpoints, pinned cursor at checkpoint, one owner per identity, disjoint traces, one outbox row per event |
| `Runs.AcceptedDeliveryIsQueued` | crates/aizu-core/src/desktop.rs:201-278 | an accepted delivery is one new history row with exactly the given data and one pending item that every dispatch from its reception on finds, and none before; checkpoint and cursor of its source alone move |
| `Replays.EveryDeliveryIsAnswered` | crates/aizu-core/src/desktop.rs:174-278 | every delivery gets one answer: a wrong caller is refused, what is on record is a duplicate, what contradicts the record is a conflict, and of the rest exactly the next sequence is inserted |
| `Replays.EveryGapIsAnswered` | crates/aizu-core/src/desktop.rs:281-356 | every declared loss gets one answer: on record it is a duplicate, and otherwise it is recorded iff it starts at the durable cursor |
| `Replays.EveryRegistrationIsAnswered` | crates/aizu-core/src/desktop.rs:57-92 | texts of 1 to 200 characters without control characters are accepted and change that setting alone |
| `Replays.EveryPinIsAnswered` | crates/aizu-core/src/desktop.rs:94-171 | pinning, replacing and releasing: one owner per identity, put back at its checkpoint, nothing else touched, each refusal named |
| `Journal.LogPartition` | crates/aizu-core/src/desktop.rs:94-356 | over every run from an empty database, insertions and declared losses cover 1..checkpoint of each source exactly once, through release, re-pin and pruning |
| `Journal.NothingHappensTwice` | crates/aizu-core/src/desktop.rs:201-278 | once a sequence was delivered or declared lost, the log of every continuation of the run extends the log so far and never covers that sequence again |
| `Journal.TiledCoversOnce` | crates/aizu-core/src/desktop.rs:174-356 | ranges laid end to end from 1 cover each sequence up to the top exactly once |
| `Journal.EveryRunIsFaithful` | crates/aizu-core/src/desktop.rs:94-356 | after every run the log of insertions and losses ends at each checkpoint and every tombstone is a logged delivery |
| `Journal.CursorsFollowWatermarks` | crates/aizu-core/src/desktop.rs:1221-1264 | in every run a pinned cursor is the known high watermark, an unpinned one is 0, and no identity is pinned twice |
| `Replays.DuplicateIffRemembered` | crates/aizu-core/src/desktop.rs:201-226 | a delivery is taken for a duplicate iff exactly that delivery is on record in history or as a tombstone |
| `Replays.RedeliveryIsDuplicate` | crates/aizu-core/src/desktop.rs:174-278 | delivering an inserted event again is a duplicate and changes nothing |
| `Replays.PruningKeepsReplays` | crates/aizu-core/src/desktop.rs:629-644 | moving events from history to tombstones forgets no delivery: a pruned one is still recognised |
| `Replays.ReplayForgottenIff` | crates/aizu-core/src/desktop.rs:565-665 | over a whole maintenance batch a remembered delivery is forgotten iff its tombstone is among those the batch deletes; such a tombstone was there before or is dated by this batch, and is over 30 days old or behind 10,000 newer ones |
| `Replays.PrunedDeliveryIsKnownForAMonth` | crates/aizu-core/src/desktop.rs:629-644 | a delivery that leaves history stays on record through every later run whose batches come within 30 days, unless 10,000 tombstones are newer |
| `Replays.PrunedDeliveryIsBuried` | crates/aizu-core/src/desktop.rs:629-644 | an event that a batch takes out of history has a tombstone of that batch afterwards, unless 10,000 tombstones are newer already |
| `Replays.TombstoneOutlivesBatch` | crates/aizu-core/src/desktop.rs:1121-1135 | a tombstone at most 30 days old with fewer than 10,000 newer ones survives a batch |
| `Replays.ReleaseAndPinRestores` | crates/aizu-core/src/desktop.rs:94-171 | releasing and pinning the same identity again restores the database exactly |
| `Replays.MovingAnIdentityKeepsItsPlace` | crates/aizu-core/src/desktop.rs:94-171 | an identity pinned under another setting resumes where the released one stopped |
| `Replays.ReplaceResumes` | crates/aizu-core/src/desktop.rs:127-147 | a replaced source resumes the new identity at its checkpoint |
| `History.OldestGoFirst` | crates/aizu-core/src/desktop.rs:574-628 | a selected event is never newer than a kept candidate that was not itself outdated |
| `History.EarliestReceivedLeavesFirst` | crates/aizu-core/src/desktop.rs:574-628 | over a whole batch: of two settled events within retention the one received earlier leaves first |
| `History.HistoryLeavesOnlyForCause` | crates/aizu-core/src/desktop.rs:565-665 | an event leaves only once its notification is settled, and past 30 days, behind 10,000 newer ones or while payloads exceed 128 MiB; a gap only past 30 days or behind 10,000 newer ones |
| `History.CandidatesAreThose` | crates/aizu-core/src/desktop.rs:574-592 | the candidates are exactly the finished events that are outdated or, under byte pressure, any finished event, each once and oldest first |
| `History.OutdatedGapsAreThose` | crates/aizu-core/src/desktop.rs:645-653 | the gaps a batch deletes are distinct outdated gaps, and a batch that is not full leaves no outdated gap |
| `History.OutdatedTombstonesAreThose` | crates/aizu-core/src/desktop.rs:1121-1135 | the tombstones a batch deletes are distinct outdated ones, and a batch that is not full leaves none outdated |
| `History.PruningBuries` | crates/aizu-core/src/desktop.rs:629-644 | each pruned event gets its own tombstone behind the old ones, with its source, sequence, identity and payload, dated by the batch |
| `History.MaintenanceIsSafe` | crates/aizu-core/src/desktop.rs:565-665 | cursors, checkpoints, unfinished events and active items never change, and soundness is kept |
| `History.MaintenanceReportIsExact` | crates/aizu-core/src/desktop.rs:645-664 | the report counts what left each table |
| `History.RemainingWorkMakesProgress` | crates/aizu-core/src/desktop.rs:616-681 | remaining work implies that (events, gaps, tombstones) decreased lexicographically |
| `History.FinishedMaintenanceIsWithinBounds` | crates/aizu-core/src/desktop.rs:565-665 | no remaining work implies each finished event is within age and the newest 10,000, bytes are within budget or nothing finished is left, and gaps and tombstones are within their bounds |
| `History.FinishedMaintenanceRetains` | crates/aizu-core/src/desktop.rs:565-665 | the same bounds in plain terms: ages in milliseconds, ranks as numbers of newer rows, for events, gaps and tombstones |
| `History.BatchesAreBounded` | crates/aizu-core/src/desktop.rs:565-665 | a batch takes at most 512 rows of each kind and reports remaining work iff one of the three kinds may have more |
| `Dispatch.WindowIsTheDueItems` | crates/aizu-core/src/desktop.rs:388-439 | the window holds each due item once, with its event, in dispatch order |
| `Dispatch.PageIsSliceOfWindow` | crates/aizu-core/src/desktop.rs:388-439 | a page of pending items is the slice of that window at its offset: distinct due items in dispatch order, shorter than its limit only at the end |
| `Answers.UrgentAndOldFirst` | crates/aizu-core/src/desktop.rs:388-439 | in the window questions stand before failed or cancelled tasks and those before the rest, and among equals what was received earlier comes first |
| `Answers.WindowHolds` | crates/aizu-core/src/desktop.rs:388-439 | the window holds exactly the waiting items that are due and were there when its upper end was fixed |
| `Answers.ItemShownIff` | crates/aizu-core/src/notification.rs:122-170 | an item is shown iff nothing holds it back: not paused, its kind enabled, not shown locally by a trusted adapter, not in quiet hours, not too old; its notice says what its row says |
| `Answers.ItemHeldBackFor` | crates/aizu-core/src/notification.rs:122-170 | the reason given for holding an item back is the first that applies |
| `Dispatch.BatchIsComplete` | crates/aizu-core/src/pipeline.rs:207-220 | the incomplete-batch error cannot occur without concurrent writers |
| `Answers.DispatchSettlesEachItem` | crates/aizu-core/src/pipeline.rs:100-235 | each due row is treated by its answer: shown means delivered, denied suppressed for a later requeue, retryable one attempt more after the delay of its count, terminal failed; one answer each up to three items, one for all beyond; held back, put off or worn out rows end as the policy says; every other row and table stays and the window ends empty |
| `Answers.OnlyWaitingIsSettled` | crates/aizu-core/src/desktop.rs:441-524 | only a waiting item is finished or put off, in its own row; anything else is refused by name |
| `Dispatch.RequeueIsExact` | crates/aizu-core/src/desktop.rs:526-540 | requeueing touches exactly the items suppressed for denied permission, makes them due with a clean record, and is idempotent |
| `Drain.ScanWindow` | crates/aizu-core/src/pipeline.rs:111-139 | paging through the window counts every eligible item and keeps the first three |
| `Drain.ShowBatch` | crates/aizu-core/src/pipeline.rs:141-158 | the notices of the batch are shown in order, one each or one summary, and the outcomes recorded are those of the batch |
| `Drain.SettleItem` | crates/aizu-core/src/pipeline.rs:190-300 | one item: its row becomes the settled row and exactly one counter goes up |
| `Drain.DrainItem` | crates/aizu-core/src/pipeline.rs:190-233 | settling an undone item of the window extends the partial dispatch by that item |
| `Drain.DrainPage` | crates/aizu-core/src/pipeline.rs:184-233 | settling a page extends the partial dispatch by the page |
| `Drain.DrainOutboxWindow` | crates/aizu-core/src/pipeline.rs:175-235 | reading at offset 0 terminates because every settled item leaves the window; the result is the whole dispatch |
| `Drain.DispatchOutboxRound` | crates/aizu-core/src/pipeline.rs:100-173 | never fails, equals the dispatch specification, treats every due row by its answer, and each of the five counters is the number of due rows so treated; they sum to the window size |
| `Drain.CountersCountAnswers` | crates/aizu-core/src/pipeline.rs:175-300 | over the specification: each counter counts the due rows that changed in its way |
| `Drain.NotifierCallCount` | crates/aizu-core/src/notification.rs:330-344 | the notifier is called once per eligible item up to three, and once in all beyond that |
| `Drain.NoticesAreOfEligible` | crates/aizu-core/src/pipeline.rs:111-158 | the notices shown are those of the eligible items in window order, or one summary with their number |
| `Retries.RetryBound` | crates/aizu-core/src/desktop.rs:1087-1096 | over whole runs, between requeues an item meets at most 5 retryable failures, at most 6 attempts, and five failures span at least 755 seconds, deferrals included |
| `Retries.EveryRunBoundsRetries` | crates/aizu-core/src/desktop.rs:441-522 | in every run each item's failures are at most five, spaced by their delays, and counted by its attempts while it is active |
| `Remote.RemoteBridgeConsumer.Open` | crates/aizu-core/src/remote.rs:116-138 | registers the source and starts with the validator of version 1 at its durable cursor and pinned identity, the stream clock at the opening, no handshake and no reason to end |
| `Remote.RemoteBridgeConsumer.AcceptFrame` | crates/aizu-core/src/remote.rs:218-314 | validate, persist, then advance: equals the specification on state, report and error; an accepted frame renews the stream clock, is counted once and leaves exactly its own trace in storage |
| `Remote.RemoteBridgeConsumer.CheckReplay` | crates/aizu-core/src/remote.rs:228-257 | an old sequence is checked against durable data without moving the stream cursor |
| `Remote.RemoteBridgeConsumer.PushStdout` | crates/aizu-core/src/remote.rs:163-176 | consumes byte by byte, so each frame is durable before the next one is read |
| `Remote.RemoteBridgeConsumer.FinishStdout` | crates/aizu-core/src/remote.rs:180-189 | end of output is an error inside a frame, else the remote's own reason, else a retry |
| `Remote.RemoteBridgeConsumer.TimeoutAt` | crates/aizu-core/src/remote.rs:194-216 | which of the two timeouts applies and when; a clock that went backwards never times out |
| `Remote.ConsumeKeepsAligned` | crates/aizu-core/src/remote.rs:218-314 | a refused frame changes nothing at all, and the consumer stays aligned with storage |
| `Remote.AcceptedFrameIsNoted` | crates/aizu-core/src/remote.rs:218-314 | what an accepted frame leaves: an event as received but for the activation key, with its sequence, size and time, or a gap, or nothing; the stream clock, the cursor and the reason of a remote error |
| `Remote.RewoundRemoteIsRefused` | crates/aizu-core/src/remote.rs:258-275 | a remote whose log ends before our cursor is refused and nothing changes |
| `Remote.ForeignReplayIsRefused` | crates/aizu-core/src/remote.rs:228-257 | an old event of another source is a breach of the stream, not a replay |
| `Remote.OldEventIsChecked` | crates/aizu-core/src/remote.rs:228-257 | an old event of this source is taken iff that delivery is on record, activation key aside, and then renews the stream clock alone |
| `Remote.RemoteErrorsAreOurs` | crates/aizu-core/src/remote.rs:323-352 | a remote error keeps one of nine known codes, never the remote words, and is retried for two of them only |
| `Remote.LiveStaysAligned` | crates/aizu-core/src/remote.rs:116-314 | over a whole session, with other sources, dispatch and maintenance interleaved, the consumer stays aligned with storage and keeps the pin it was opened with |
| `Remote.ConsumerIsNeverAhead` | crates/aizu-core/src/remote.rs:116-314 | with other sources, dispatch and maintenance interleaved, the stream cursor never exceeds the durable one, equals it if the source was pinned at open, and the unexpected-replay error never occurs |
| `Remote.FeedConsumesDecodedFrames` | crates/aizu-core/src/remote.rs:163-176 | feeding a chunk consumes exactly the frames the decoder finds in it, in order |
| `Pipeline.IngestLocalSpool` | crates/aizu-core/src/pipeline.rs:47-97 | the paging loop equals its specification on database, report and error |
| `Pipeline.IngestionIsRefused` | crates/aizu-core/src/pipeline.rs:47-64 | direct ingestion is refused before it reads a row for a bad text, a source pinned or an identity owned elsewhere, or a cursor beyond the spool; the registration then stands and nothing else |
| `Pipeline.IngestAllPages` | crates/aizu-core/src/pipeline.rs:80-96 | pages are read until one comes back short, each from the last sequence of the one before |
| `Pipeline.IngestPage` | crates/aizu-core/src/pipeline.rs:85-91 | one page is ingested row by row and stops at the first error |
| `Pipeline.PagesAreRows` | crates/aizu-core/src/pipeline.rs:80-96 | page boundaries do not matter: the rows after the cursor are ingested once each, in order |
| `Erasures.IngestAgrees` | crates/aizu-core/src/desktop.rs:174-278 | beyond the cursor, deliveries that look the same do the same to databases that look the same |
| `Erasures.SameShapeIffAlike` | crates/aizu-core/src/remote.rs:316-320 | two databases look the same through an erasure iff corresponding rows differ in nothing but the activation key and stored size, or in nothing but times |
| `Agreement.PendingStep` | crates/aizu-cli/src/main.rs:783-818 | delivering the next canonical frame leaves exactly the rest of the canonical stream to come |
| `Agreement.CanonicalStep` | crates/aizu-core/src/remote.rs:258-314 | a consumer in the stream accepts the next canonical frame, and what storage says decides the outcome |
| `Agreement.PlayDelivers` | crates/aizu-core/src/remote.rs:218-314 | a consumer offered everything pending does to the database what delivering it in one go does |
| `Agreement.PartialPlayIsHarmless` | crates/aizu-core/src/remote.rs:228-257 | whatever part of a stream arrives, old events repeated or forged included, catching up afterwards ends where catching up before would have ended |
| `Agreement.SessionDelivers` | crates/aizu-core/src/remote.rs:116-314 | a complete session delivers exactly what was pending when it opened |
| `Agreement.CrashAndReconnect` | crates/aizu-core/src/remote.rs:116-257 | any series of interrupted sessions, each reopened from the durable cursor and possibly replaying old events, followed by a complete one leaves row for row the same database as one uninterrupted session, times aside, for every sound spool |
| `Agreement.TwoPathsAgree` | crates/aizu-core/src/pipeline.rs:47-97 | for a ready source and a quiet spool with no hole ahead, a bridge session and direct ingestion leave row for row the same database, the activation key and stored sizes aside, and report the same counts or the same error |
| `Agreement.TwoPathsAgreeIffNoHole` | crates/aizu-core/src/pipeline.rs:65-96 | with nothing ahead delivered before, the two paths agree if and only if no hole lies ahead; the bridge session then succeeds in any case |
| `Agreement.SteppedBackClockSeparatesPaths` | crates/aizu-core/src/pipeline.rs:65-96 | concrete input: from the spool a clock stepping back leaves, the bridge session into an empty desktop succeeds and direct ingestion fails |
| `Agreement.ContiguousMeansNoHole` | crates/aizu-core/src/spool.rs:461-560 | a contiguous suffix ending at the watermark has no hole ahead of any cursor within it |
| `Reopening.ReopeningDeliversIfRetraced` | crates/aizu-core/src/remote.rs:116-314 | a source released and reopened starts at 0 although its identity is known up to a watermark: if the stream retraces what is on record up to exactly that watermark, the session leaves the database, error and counts of one resumed there; otherwise it delivers nothing but pins the source at the watermark |
| `Reopening.NextSessionMakesUp` | crates/aizu-core/src/remote.rs:116-314 | after a reopening session that could not retrace, the next complete session delivers exactly what was pending at the watermark |
| `Reopening.ReopenedPathsAgreeIfRetraced` | crates/aizu-core/src/pipeline.rs:47-97 | with no hole ahead of the watermark, direct ingestion of a source reopened unpinned and a bridge session that retraces leave the same database and the same error or counts; a session that does not retrace leaves the pinned database direct ingestion starts from |
| `Reopening.ReopeningCanStop` | crates/aizu-core/src/desktop.rs:158-171 | concrete input: a source told that 1 is lost, released, and reopened on a spool that has lost 2 as well |
| `Wire.LineRoundTrip` | crates/aizu-core/src/protocol.rs:303-364 | provided the reader understands what the writer wrote, a frame is written iff the reading side takes its line, within the same limit, and reading what was written gives the frame back |
| `Wire.WireIsTransparent` | crates/aizu-core/src/remote.rs:163-176 | the bytes of a stream, cut anyhow, do to a consumer exactly what its frames do one by one |
| `EndToEnd.BytesAgreeWithDirectIngestion` | crates/aizu-core/src/pipeline.rs:47-97 | bytes written for a quiet spool with no hole ahead, cut anyhow and pushed into a fresh consumer, leave the database direct ingestion leaves |
| `Quoting.UnescapeEscape` | crates/aizu-core/src/integration.rs:183-192 | undoing the escape gives back every value, quotes and apostrophes included |
| `Quoting.QuotingIsInjective` | crates/aizu-core/src/integration.rs:281-283 | two paths with the same quotation are the same path |
| `Quoting.CanonicalIffQuoted` | crates/aizu-core/src/integration.rs:183-201 | the recogniser accepts a value iff it is the quotation of an absolute, control-free path whose last component is aizu or aizu.exe |
| `Quoting.AizuPathIff` | crates/aizu-core/src/integration.rs:194-201 | an executable counts as aizu iff its path is absolute and control-free and its last component, empty ones and dots aside, is aizu or aizu.exe in any case |
| `Quoting.SplitIsFaithful` | crates/aizu-core/src/integration.rs:194-201 | splitting a path cuts it at its slashes and loses nothing |
| `Quoting.ShellRunsExactly` | crates/aizu-core/src/integration.rs:281-283 | a shell splits a quoted executable and plain arguments into exactly that executable and those arguments |
| `Hooks.MergeHookConfiguration` | crates/aizu-core/src/integration.rs:28-66 | the in-place merge with its nested loops equals the merge specification, errors included |
| `Hooks.RemoveGeneratedGroups` | crates/aizu-core/src/integration.rs:123-125 | every group that is not ours stays, in order |
| `Hooks.MergeShape` | crates/aizu-core/src/integration.rs:28-66 | a merge is accepted iff the path is valid and the configuration has the required shape, and then changes only the required events |
| `Hooks.MergeRefusals` | crates/aizu-core/src/integration.rs:28-66 | a refused merge names the first thing wrong: path, root, hooks object or an event without a list |
| `Hooks.MergeIsIdempotent` | crates/aizu-core/src/integration.rs:28-66 | merging twice is merging once, on every configuration it accepts |
| `Hooks.MergeIsConservative` | crates/aizu-core/src/integration.rs:28-66 | other keys and events keep their values, foreign groups keep value, order and multiplicity, and one generated group per required event remains when the executable is called aizu |
| `Hooks.MergeInstalls` | crates/aizu-core/src/integration.rs:28-66 | for each required event the merged configuration holds a group whose command a shell runs as the given executable with the hook arguments, with 50 seconds for a permission request and 5 otherwise |
| `Hooks.NewPathReplacesOld` | crates/aizu-core/src/integration.rs:123-171 | a merge for another executable leaves no trace of a merge for one called aizu |
| `Hooks.ExpectedIsGeneratedIff` | crates/aizu-core/src/integration.rs:127-192 | our own group is recognised iff the executable is called aizu |
| `Hooks.OursIff` | crates/aizu-core/src/integration.rs:127-192 | a group is ours iff it holds one handler of ours, by shell line or by arguments, and nothing else; a second handler or a further field makes it foreign |
| `Hooks.StatusIsFixpoint` | crates/aizu-core/src/integration.rs:71-121 | configured means exactly: merging would change nothing and Claude's hooks are not disabled |
| `Hooks.StatusAfterMerge` | crates/aizu-core/src/integration.rs:71-115 | after a merge the status is configured, or approval-required for Codex, unless Claude's hooks are disabled |
| `Hooks.InstalledCommandRunsAizu` | crates/aizu-core/src/integration.rs:225-283 | the installed command line runs the given executable with the hook arguments |
| `Percent.BoundedPercentDecode` | crates/aizu-core/src/adapter.rs:1341-1374 | the nested loops return w iff the input is at most 4,096 bytes, eight rounds lead to w, w is well-formed and holds no triple |
| `Percent.DecodeRound` | crates/aizu-core/src/adapter.rs:1347-1366 | one pass over the bytes is one round, and it changes something iff a percent sign was there |
| `Percent.FindTriple` | crates/aizu-core/src/adapter.rs:1384-1388 | finds a triple iff one starts somewhere |
| `Percent.TripleIff` | crates/aizu-core/src/adapter.rs:1384-1388 | a triple is a percent sign and two hexadecimal digits in either case, and stands for the byte they spell |
| `Percent.DecodingUndoesEncoding` | crates/aizu-core/src/adapter.rs:1346-1366 | a round decodes to a text iff the input is an encoding of it in the sense of section 2.1 of RFC 3986 |
| `Percent.EncodedTextComesBack` | crates/aizu-core/src/adapter.rs:1341-1388 | text without a percent sign, encoded wholly or in part up to eight times within the limit, comes back |
| `Percent.ResultsAreSettled` | crates/aizu-core/src/adapter.rs:1371-1388 | every result is at most as long as the input and holds no triple; a percent sign in it took eight changing rounds |
| `Percent.PercentNeedsEightLayers` | crates/aizu-core/src/adapter.rs:1346-1374 | a percent sign behind any number of layers survives iff there are exactly eight; with fewer or more the text is refused |
| `BannerWindow.BannerState.Push` | apps/desktop/src-tauri/src/banner.rs:127-177 | replacement, rejection, eviction and append, with claims, sound, retry and generation, equal the specification |
| `BannerWindow.BannerState.RemoveBanner` | apps/desktop/src-tauri/src/banner.rs:193-220 | removal renews the generation iff a banner went, silencing its own sound only |
| `BannerWindow.BannerState.Dismiss` | apps/desktop/src-tauri/src/banner.rs:179-191 | withdraws the claim with the banner and says whether the queue is empty |
| `BannerWindow.BannerState.ClaimActivation` | apps/desktop/src-tauri/src/banner.rs:234-260 | one claim at a time, only on a queued banner with an activation, under a token never used before |
| `BannerWindow.BannerState.CancelActivation` | apps/desktop/src-tauri/src/banner.rs:262-270 | only the claim in force is withdrawn |
| `BannerWindow.BannerState.UpdateTextSize` | apps/desktop/src-tauri/src/banner.rs:294-319 | renews the generation iff some banner changes size |
| `BannerWindow.BannerState.UpdateApprovalCentering` | apps/desktop/src-tauri/src/banner.rs:321-348 | remembers the setting, and renews the generation iff it changes a visible approval |
| `BannerWindow.BannerState.UpdateNotificationDisplay` | apps/desktop/src-tauri/src/banner.rs:358-405 | remembers the setting, and renews the generation iff it changes visible passive banners |
| `BannerWindow.BannerState.UpdateApprovalDisplay` | apps/desktop/src-tauri/src/banner.rs:365-405 | remembers the setting, and renews the generation iff it changes a visible approval |
| `BannerWindow.BannerState.BeginPresentation` | apps/desktop/src-tauri/src/banner.rs:420-437 | offers the current generation iff it is dirty, due and nothing is in flight; otherwise changes nothing |
| `BannerWindow.BannerState.TakePendingSound` | apps/desktop/src-tauri/src/banner.rs:465-483 | a sound is taken once, by its own generation only |
| `BannerWindow.BannerState.CompleteActivation` | apps/desktop/src-tauri/src/banner.rs:272-292 | completion removes the banner only for the claim in force |
| `BannerWindow.BannerState.FinishPresentation` | apps/desktop/src-tauri/src/banner.rs:439-463 | a superseded presentation only frees the slot; a failure retries with growing delays and gives up after five |
| `BannerWindow.BannerState.ClearPassive` | apps/desktop/src-tauri/src/banner.rs:407-418 | dismisses the passive banners of one snapshot, one after the other |
| `Banners.NoPresentationIsLost` | apps/desktop/src-tauri/src/banner.rs:127-463 | in every run without a rejected push the current generation is dirty, in flight, presented or given up after five failures |
| `Banners.PresentationLostIff` | apps/desktop/src-tauri/src/banner.rs:127-463 | in every run whatsoever a presentation is lost iff some push was rejected while none was due and nothing since has renewed the generation |
| `Banners.PresentationStaysSound` | apps/desktop/src-tauri/src/banner.rs:127-463 | every run, rejected pushes included, keeps: the in-flight slot is taken iff a presentation is running, it offers no generation that is not yet announced, and five failures leave nothing due |
| `Banners.RejectedPushLosesIff` | apps/desktop/src-tauri/src/banner.rs:142-166 | in every reachable state a rejected second approval advances the generation and leaves the queue, and a presentation is thereby lost iff none was due |
| `Banners.SecondApprovalLosesPresentation` | apps/desktop/src-tauri/src/banner.rs:142-166 | concrete input: an approval pushed and shown, then a second one pushed |
| `Banners.StaleClaimIsPowerless` | apps/desktop/src-tauri/src/banner.rs:234-292 | in every run claims name queued banners only, and a claim taken before its banner was replaced, evicted or dismissed removes nothing |
| `Banners.PendingSoundIsForQueuedBanner` | apps/desktop/src-tauri/src/banner.rs:142-220 | in every run without a rejected push a pending sound belongs to the current generation and to a banner still queued |
| `Banners.PushKeepsQueueSmallIff` | apps/desktop/src-tauri/src/banner.rs:152-176 | a push keeps at most three passive banners and one approval if and only if it does not turn an approval into a fourth passive banner or a passive banner into a second approval |
| `Banners.FourPassiveBanners` | apps/desktop/src-tauri/src/banner.rs:152-176 | concrete input: an approval among three passive banners, replaced by a passive one |
| `Banners.TwoApprovals` | apps/desktop/src-tauri/src/banner.rs:152-176 | concrete input: a passive banner beside an approval, replaced by an approval |
| `Banners.OldestPassiveIsEvicted` | apps/desktop/src-tauri/src/banner.rs:165-174 | a fourth passive banner pushes out the oldest passive one and leaves the order of the rest |
| `Banners.PushDoes` | apps/desktop/src-tauri/src/banner.rs:127-177 | a push replaces in place, is refused, or comes last behind at most two other passive banners; claims lapse with what goes, and its sound is pending under a new generation in every case |
| `Banners.RemovalDoes` | apps/desktop/src-tauri/src/banner.rs:193-220 | removal takes every banner of that identifier, renews the generation iff one was there and silences a sound of its own; claims on others stay |
| `Banners.ClaimInForceDoes` | apps/desktop/src-tauri/src/banner.rs:262-292 | a claim in force can be withdrawn, or completed like a dismissal; any other claim changes nothing |
| `Banners.FinishDoes` | apps/desktop/src-tauri/src/banner.rs:439-463 | failures wait 250, 1,000, 4,000 and 15,000 ms and the fifth gives up, dropping its own sound; an outcome of a superseded generation only frees the slot |
| `Banners.SoundIsTakenOnce` | apps/desktop/src-tauri/src/banner.rs:465-483 | a sound is handed out once, to its own generation; asking again yields nothing |
| `Banners.ClearLeavesApprovals` | apps/desktop/src-tauri/src/banner.rs:407-418 | clearing leaves exactly the approvals |
| `ActivationRegistry.SystemActivationRegistry.Replace` | apps/desktop/src-tauri/src/notifier.rs:214-245 | the eviction loop and the token step equal the specification |
| `ActivationRegistry.SystemActivationRegistry.RemoveIf` | apps/desktop/src-tauri/src/notifier.rs:247-257 | equals the specification on both the map and the queue |
| `ActivationRegistry.SystemActivationRegistry.Take` | apps/desktop/src-tauri/src/notifier.rs:259-263 | equals the specification on both the map and the queue |
| `Registry.ReplaceRefinesFifo` | apps/desktop/src-tauri/src/notifier.rs:214-245 | until tokens wrap, a replacement is a bounded FIFO insertion: the old entry goes, a full registry loses exactly its oldest, the new token exceeds all before |
| `Registry.RemoveIfRefinesFifo` | apps/desktop/src-tauri/src/notifier.rs:247-257 | removes the entry holding that token and never another one |
| `Registry.RunsAgree` | apps/desktop/src-tauri/src/notifier.rs:206-264 | in every run too short to wrap the token, map and queue hold the same pairs without repeats, at most 64 |
| `Registry.OldTokenIsPowerless` | apps/desktop/src-tauri/src/notifier.rs:247-257 | once an identifier was replaced again, removal with its old token changes nothing, however the run goes on |
| `Registry.TokensSkipZero` | apps/desktop/src-tauri/src/notifier.rs:206-245 | the token counter runs through the 64-bit values and skips 0 when it wraps |
| `Replays.GapRedeliveryIsDuplicate` | crates/aizu-core/src/desktop.rs:281-356 | supporting fact: declaring a recorded gap again is a duplicate and changes nothing |
| `Retries.ExhaustedItemBecomesTerminal` | crates/aizu-core/src/pipeline.rs:190-198 | supporting fact: an item that has used up its attempts is ended by the next dispatch |
| `Notification.QuietHoursAreAnArc` | crates/aizu-core/src/notification.rs:54-69 | supporting fact: quiet hours are one arc of the clock, across midnight or not, and swapping the ends gives the complement |
| `Notification.LoosePolicyShowsMore` | crates/aizu-core/src/notification.rs:122-170 | supporting fact: loosening any setting never suppresses what was shown before |
| `Notification.QuietOnlyDelays` | crates/aizu-core/src/notification.rs:149-168 | supporting fact: an event held back by quiet hours would otherwise be shown or have expired |
| `Notification.SkewedClockCountsFromReception` | crates/aizu-core/src/notification.rs:156-168 | supporting fact: a skewed sender clock cannot expire a completion that was received recently |

## Left out

- Where documentation and code disagree the code is modelled: section 4.1 of docs/protocol.md says that replacing a source resets its cursor to 0, while `replace_source` resumes at the known watermark (`Replays.ReplaceResumes`).
- SQLite itself, write-ahead logging, busy retries, migrations, file permissions and locks: a transaction is one atomic step, so errors of the store, `ConcurrentSourceChange` and the maintenance lock do not occur.
- JSON syntax, field validation and payload parsing: the strict reader, the writer and the payload size are parameters, constrained only where a theorem says so.
- Timestamp text: an instant is an integer; only the truncation of spool insertion times to milliseconds is modelled.
- A new row identifier is one more than the largest in use, as for an `INTEGER PRIMARY KEY`; the store's fallback at the 64-bit maximum is not modelled.
- The wrap-around of an optimised build is modelled where frames are validated; debug builds would stop there instead.
- Pipeline.IngestLocalSpool: the spool stands still during the call; other processes may change it only between calls.
- Bridge.StreamBridge: identity regeneration during a stream is covered only as far as the changed identity is noticed, snapshots are atomic reads, sleeping and heartbeat timing are a parameter, and the number of turns is that of the reads supplied.
- Agreement.TwoPathsAgree: the source is pinned to the spool or was never seen before; for a source released and reopened unpinned the paths agree under the condition of `Reopening.ReopenedPathsAgreeIfRetraced`, duplicate counts aside.
- Agreement.CrashAndReconnect: the spool is quiet and no maintenance happens between the sessions.
- Drain.DispatchOutboxRound: no other writer touches the outbox during a dispatch; rendered notification texts are not modelled.
- Retries.RetryBound: failures are counted since the item was queued or last requeued; dispatch is the only writer of outbox states besides requeueing and maintenance.
- BannerWindow.BannerState.Push: each method runs to its end before the next one starts, so interleavings between its locks and atomic flags, lock poisoning and counter overflow are not modelled.
- Registry.ReplaceRefinesFifo: the token counter has not wrapped.
- Hooks.MergeHookConfiguration: paths that are not UTF-8, Windows paths and the `description` key of a fresh Codex configuration; a merge never writes that key.
- Identity regeneration, the doctor report and history queries read or rewrite single tables; the redaction heuristics of the adapter classify free text; installation, process monitoring, the approval broker, terminal activation targets, window geometry and user-interface commands talk to the operating system. None of them is part of this model.
