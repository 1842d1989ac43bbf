/** The durable desktop state as an object: every method is one transaction on its tables. */
module Desktop {
  import opened Base
  import opened Events
  import opened Rows
  import opened Ordering
  import opened Deletion
  import opened Tables
  import opened History
  import opened Dispatch
  import opened Runs
  import opened Replays

  const MAX_PAGE_SIZE := 1000
  const CLEAR_AHEAD := 36_500 * DAY_MILLIS

  class DesktopState {
    var sources: map<string, Source>
    var events: seq<EventRow>
    var gaps: seq<GapRow>
    var tombstones: seq<Tombstone>
    var checkpoints: map<Uuid, int>
    var outbox: seq<OutboxRow>

    function Contents(): Db
      reads this
    {
      Db(sources, events, gaps, tombstones, checkpoints, outbox)
    }

    constructor ()
      ensures Contents() == EMPTY_DATABASE && Sound(Contents())
    {
      sources, events, gaps, tombstones, checkpoints, outbox := map[], [], [], [], map[], [];
    }

    method FindSource(key: string) returns (source: Option<Source>)
      ensures source == if key in sources then Some(sources[key]) else None
    {
      return if key in sources then Some(sources[key]) else None;
    }

    method RegisterSource(key: string, localLabel: string) returns (result: Result<Registration, DesktopError>)
      modifies this`sources
      ensures Transaction(Contents(), result) == Tables.RegisterSource(old(Contents()), key, localLabel)
    {
      if !ValidLocalText(key) { return Err(InvalidLocalText("source key")); }
      if !ValidLocalText(localLabel) { return Err(InvalidLocalText("source label")); }
      if key in sources {
        var source := sources[key].(localLabel := localLabel);
        sources := sources[key := source];
        return Ok(Existing(source));
      }
      var source := Source(localLabel, None, 0);
      sources := sources[key := source];
      return Ok(Created(source));
    }

    method PinSource(key: string, id: Uuid) returns (result: Result<PinResult, DesktopError>)
      modifies this`sources
      ensures Transaction(Contents(), result) == Tables.PinSource(old(Contents()), key, id)
    {
      if key !in sources { return Err(SourceNotRegistered(key)); }
      var source := sources[key];
      if source.pinned.Some? {
        if source.pinned.value == id { return Ok(AlreadyPinned); }
        return Err(SourceIdentityChanged(key, source.pinned.value, id));
      }
      if OwnedElsewhere(Contents(), key, id) { return Err(DuplicateSourceRegistration(id)); }
      var resumed := KnownHighWatermark(Contents(), id);
      sources := sources[key := source.(pinned := Some(id), cursor := resumed)];
      return Ok(NewlyPinned);
    }

    method ReplaceSource(key: string, id: Uuid) returns (result: Result<(), DesktopError>)
      modifies this`sources
      ensures Transaction(Contents(), result) == Tables.ReplaceSource(old(Contents()), key, id)
    {
      if key !in sources { return Err(SourceNotRegistered(key)); }
      if OwnedElsewhere(Contents(), key, id) { return Err(DuplicateSourceRegistration(id)); }
      var resumed := KnownHighWatermark(Contents(), id);
      sources := sources[key := sources[key].(pinned := Some(id), cursor := resumed)];
      return Ok(());
    }

    method ReleaseSourceIdentity(key: string) returns (result: Result<(), DesktopError>)
      modifies this`sources
      ensures Transaction(Contents(), result) == ReleaseSource(old(Contents()), key)
    {
      if key !in sources { return Err(SourceNotRegistered(key)); }
      sources := sources[key := sources[key].(pinned := None, cursor := 0)];
      return Ok(());
    }

    method IngestEvent(key: string, sequence: int, event: Event, bytes: nat, receivedAt: int)
      returns (result: Result<IngestResult, DesktopError>)
      modifies this
      ensures Transaction(Contents(), result) == Tables.IngestEvent(old(Contents()), key, sequence, event, bytes, receivedAt)
      ensures Sound(old(Contents())) && result.Ok? && result.value.Inserted? ==>
                && events != [] && outbox != []
                && Queued(old(Contents()), key, sequence, event, bytes, receivedAt, Contents(), events[|events| - 1], outbox[|outbox| - 1])
    {
      hide Queued, Sound;
      ghost var inserted := Tables.IngestEvent(Contents(), key, sequence, event, bytes, receivedAt).result;
      if Sound(Contents()) && inserted.Ok? && inserted.value.Inserted? {
        AcceptedDeliveryIsQueued(Contents(), key, sequence, event, bytes, receivedAt);
      }
      if sequence <= 0 { return Err(InvalidSequence(sequence)); }
      if key !in sources { return Err(SourceNotRegistered(key)); }
      var source := sources[key];
      if source.pinned.None? { return Err(SourceNotPinned(key)); }
      var pinned := source.pinned.value;
      if pinned != event.sourceId { return Err(SourceIdentityChanged(key, pinned, event.sourceId)); }
      var matching := MatchingEvents(Contents(), pinned, sequence, event.id);
      if matching != [] {
        if |matching| == 1 && matching[0].sequence == sequence && matching[0].eventId == event.id
           && matching[0].digest == event {
          return Ok(Duplicate);
        }
        return Err(ConflictingEvent(pinned, sequence, event.id));
      }
      if source.cursor == I64_MAX { return Err(CursorExhausted); }
      if sequence != source.cursor + 1 { return Err(UnexpectedSequence(source.cursor + 1, sequence)); }
      var rowId := NextId(events, EventRowId);
      events := events + [EventRow(rowId, key, pinned, source.localLabel, sequence, event, bytes, receivedAt,
                                   IsClockSkewed(event.occurredAt, receivedAt))];
      sources := sources[key := source.(cursor := sequence)];
      checkpoints := RaiseCheckpoint(checkpoints, pinned, sequence);
      var outboxId := NextId(outbox, OutboxId);
      outbox := outbox + [OutboxRow(outboxId, rowId, (pinned, event.id), Pending, None, 0, receivedAt)];
      return Ok(Inserted(rowId, outboxId));
    }

    method RecordGap(key: string, requestedAfter: int, lostThrough: int, receivedAt: int)
      returns (result: Result<GapResult, DesktopError>)
      modifies this
      ensures Transaction(Contents(), result) == Tables.RecordGap(old(Contents()), key, requestedAfter, lostThrough, receivedAt)
    {
      if requestedAfter < 0 || lostThrough <= requestedAfter { return Err(InvalidGap(requestedAfter, lostThrough)); }
      if key !in sources { return Err(SourceNotRegistered(key)); }
      var source := sources[key];
      if source.pinned.None? { return Err(SourceNotPinned(key)); }
      var id := source.pinned.value;
      var alreadyRecorded := GapRecorded(Contents(), id, requestedAfter + 1, lostThrough);
      if alreadyRecorded && source.cursor >= lostThrough { return Ok(DuplicateGap); }
      if source.cursor != requestedAfter { return Err(UnexpectedGapCursor(source.cursor, requestedAfter)); }
      if alreadyRecorded { return Err(UniqueConstraint); }
      var rowId := NextId(gaps, GapRowId);
      gaps := gaps + [GapRow(rowId, key, id, source.localLabel, requestedAfter + 1, lostThrough, receivedAt)];
      sources := sources[key := source.(cursor := lostThrough)];
      checkpoints := RaiseCheckpoint(checkpoints, id, lostThrough);
      return Ok(Recorded(rowId));
    }

    method PendingOutboxPage(limit: nat, offset: nat, high: int, now: int) returns (result: Result<seq<Item>, ()>)
      ensures result == if 1 <= limit <= 1000 then Ok(Page(Contents(), limit, offset, high, now)) else Err(())
    {
      if !(1 <= limit <= MAX_PAGE_SIZE) { return Err(()); }
      return Ok(Page(Contents(), limit, offset, high, now));
    }

    method FinishOutbox(id: int, outcome: OutboxOutcome, now: int) returns (result: Result<(), DesktopError>)
      modifies this`outbox
      ensures Transaction(Contents(), result) == Dispatch.FinishOutbox(old(Contents()), id, outcome, now)
    {
      var found := FindOutbox(outbox, id);
      if found.None? || !Active(found.value.state) { return Err(OutboxNotPending(id)); }
      outbox := PutOutbox(outbox, FinishedRow(found.value, outcome, now));
      return Ok(());
    }

    method DeferOutbox(id: int, nextAttemptAt: int) returns (result: Result<(), DesktopError>)
      modifies this`outbox
      ensures Transaction(Contents(), result) == Dispatch.DeferOutbox(old(Contents()), id, nextAttemptAt)
    {
      var found := FindOutbox(outbox, id);
      if found.None? || !Active(found.value.state) { return Err(OutboxNotPending(id)); }
      outbox := PutOutbox(outbox, found.value.(nextAttemptAt := nextAttemptAt));
      return Ok(());
    }

    /** Puts denied notifications back in the queue and says how many there were. */
    method RequeuePermissionSuppressed(now: int) returns (requeued: nat)
      modifies this`outbox
      ensures Contents() == Dispatch.RequeuePermissionSuppressed(old(Contents()), now)
      ensures requeued == |Filter(old(outbox), PermissionSuppressed)|
    {
      requeued := |Filter(outbox, PermissionSuppressed)|;
      var rows := outbox;
      outbox := seq(|rows|, i requires 0 <= i < |rows| => RequeuedRow(rows[i], now));
    }

    method MaintainHistory(historyNow: int, tombstoneNow: int) returns (report: HistoryReport)
      modifies this`events, this`gaps, this`tombstones, this`checkpoints, this`outbox
      ensures (Contents(), report) == History.MaintainHistory(old(Contents()), historyNow, tombstoneNow)
      ensures Sound(old(Contents())) ==> RetainsAsPromised(old(Contents()), historyNow, tombstoneNow, Contents())
    {
      hide Sum, Filter, Sort, Select, PruneEvents, CountNewer, RetainsAsPromised, Sound;
      if Sound(Contents()) { BatchRetainsAsPromised(Contents(), historyNow, tombstoneNow); }
      var payloadBytes := Sum(events, EventBytes);
      var overBytes := payloadBytes > MAX_DESKTOP_BYTES;
      var cutoff := historyNow - HISTORY_RETENTION;
      var candidates := Candidates(Contents(), cutoff, overBytes);
      var moreEventCandidates := |candidates| > MAINTENANCE_BATCH;
      var batch := History.Take(candidates, MAINTENANCE_BATCH);
      var selected := [];
      SelectNothing(events, cutoff, payloadBytes);
      for i := 0 to |batch|
        invariant Contents() == old(Contents())
        invariant Select(batch[..i], events, cutoff, Sum(events, EventBytes)) == Selection(selected, payloadBytes)
      {
        SelectOneMore(batch, i, events, cutoff, Sum(events, EventBytes));
        if Outdated(batch[i], events, cutoff) || payloadBytes > MAX_DESKTOP_BYTES {
          payloadBytes := payloadBytes - batch[i].bytes;
          selected := selected + [batch[i]];
        }
      }
      assert batch[..|batch|] == batch;
      assert SelectedEvents(Contents(), historyNow).selected == selected;
      PruneNothing(Contents(), tombstoneNow);
      for i := 0 to |selected|
        invariant Contents() == PruneEvents(old(Contents()), selected[..i], tombstoneNow)
      {
        PruneOneMore(old(Contents()), selected, i, tombstoneNow);
        var row := selected[i];
        checkpoints := RaiseCheckpoint(checkpoints, row.sourceId, row.sequence);
        tombstones := Bury(tombstones, row, tombstoneNow);
        events := Without(events, EventRowId, {row.id});
        outbox := Without(outbox, OutboxEvent, {row.id});
      }
      assert selected[..|selected|] == selected;
      var oldGaps := OutdatedGaps(gaps, cutoff);
      gaps := Without(gaps, GapRowId, Ids(oldGaps, GapRowId));
      var oldGraves := OutdatedTombstones(tombstones, tombstoneNow - HISTORY_RETENTION);
      tombstones := Without(tombstones, TombstoneId, Ids(oldGraves, TombstoneId));
      report := HistoryReport(|selected|, |oldGaps|, |oldGraves|,
                              moreEventCandidates || |oldGaps| == MAINTENANCE_BATCH || |oldGraves| == MAINTENANCE_BATCH);
    }

    /**
     * Clears finished history. clock(k) is the k-th reading of the wall clock, in any order; the loop ends
     * because each batch that leaves work behind has made progress.
     */
    method ClearHistory(clock: nat -> int) returns (total: HistoryReport, ghost rounds: nat)
      requires Sound(Contents())
      modifies this`events, this`gaps, this`tombstones, this`checkpoints, this`outbox
      ensures Sound(Contents())
      ensures checkpoints == old(checkpoints)
      ensures forall r :: r in events ==> r in old(events)
      ensures forall o :: o in outbox ==> o in old(outbox)
      ensures forall o :: o in old(outbox) && Active(o.state) ==> o in outbox
      ensures total.eventsPruned == old(|events|) - |events| && total.gapsPruned == old(|gaps|) - |gaps|
      ensures total.tombstonesPruned == old(|tombstones|) + total.eventsPruned - |tombstones| && !total.remainingWork
      ensures rounds > 0
           && WithinHistoryBounds(Contents(), clock(2 * rounds - 2) + 36_470 * DAY_MILLIS)
           && TombstonesWithinBounds(tombstones, clock(2 * rounds - 1) - HISTORY_RETENTION)
      ensures forall r :: r in events && Closed(outbox, r) ==> r.receivedAt > clock(2 * rounds - 2)
      ensures forall g :: g in gaps ==> g.receivedAt > clock(2 * rounds - 2)
    {
      hide Sound, History.MaintainHistory, WithinHistoryBounds, TombstonesWithinBounds, Closed;
      total := HistoryReport(0, 0, 0, false);
      rounds := 0;
      var read := 0;
      while true
        invariant Sound(Contents())
        invariant read == 2 * rounds
        invariant sources == old(sources) && checkpoints == old(checkpoints)
        invariant forall r :: r in events ==> r in old(events)
        invariant forall o :: o in outbox ==> o in old(outbox)
        invariant forall o :: o in old(outbox) && Active(o.state) ==> o in outbox
        invariant total.eventsPruned == old(|events|) - |events| && total.gapsPruned == old(|gaps|) - |gaps|
        invariant total.tombstonesPruned == old(|tombstones|) + total.eventsPruned - |tombstones| && !total.remainingWork
        decreases |events|, |gaps|, |tombstones|
      {
        var historyNow, tombstoneNow := clock(read) + CLEAR_AHEAD, clock(read + 1);
        read := read + 2;
        rounds := rounds + 1;
        ghost var before := Contents();
        MaintenanceIsSafe(before, historyNow, tombstoneNow);
        MaintenanceReportIsExact(before, historyNow, tombstoneNow);
        var report := MaintainHistory(historyNow, tombstoneNow);
        total := HistoryReport(total.eventsPruned + report.eventsPruned, total.gapsPruned + report.gapsPruned,
                               total.tombstonesPruned + report.tombstonesPruned, false);
        if !report.remainingWork {
          FinishedMaintenanceIsWithinBounds(before, historyNow, tombstoneNow);
          NothingFinishedIsLeft(Contents(), clock(read - 2));
          return;
        }
        RemainingWorkMakesProgress(before, historyNow, tombstoneNow);
      }
    }
  }

  /** Within bounds as seen from a century ahead, nothing finished so far is left. */
  lemma NothingFinishedIsLeft(db: Db, now: int)
    requires WithinHistoryBounds(db, now + CLEAR_AHEAD - HISTORY_RETENTION)
    ensures forall r :: r in db.events && Closed(db.outbox, r) ==> r.receivedAt > now
    ensures forall g :: g in db.gaps ==> g.receivedAt > now
  {
    hide Closed, Terminal;
    forall r | r in db.events && Closed(db.outbox, r) ensures r.receivedAt > now {
      TerminalIsClosed(db.outbox, r);
    }
  }

  lemma SelectNothing(rows: seq<EventRow>, cutoff: int, bytes: int)
    ensures Select([], rows, cutoff, bytes) == Selection([], bytes)
  {
  }

  lemma SelectOneMore(batch: seq<EventRow>, i: nat, rows: seq<EventRow>, cutoff: int, bytes: int)
    requires i < |batch|
    ensures Select(batch[..i + 1], rows, cutoff, bytes)
         == SelectStep(Select(batch[..i], rows, cutoff, bytes), batch[i], rows, cutoff)
  {
    assert batch[..i + 1][..i] == batch[..i];
  }

  lemma PruneNothing(db: Db, now: int)
    ensures PruneEvents(db, [], now) == db
  {
  }

  lemma PruneOneMore(db: Db, selected: seq<EventRow>, i: nat, now: int)
    requires i < |selected|
    ensures PruneEvents(db, selected[..i + 1], now) == PruneEvent(PruneEvents(db, selected[..i], now), selected[i], now)
  {
    assert selected[..i + 1][..i] == selected[..i];
  }
}
