/** What repeating or undoing an operation does: redelivery, pruning before a replay, release and pin again. */
module Replays {
  import opened Base
  import opened Events
  import opened Rows
  import opened Ordering
  import opened Deletion
  import opened Tables
  import opened History
  import opened Dispatch
  import opened Runs
  import Protocol

  /** Exactly this delivery is on record, in history or as a tombstone. */
  ghost predicate Remembered(db: Db, id: Uuid, sequence: int, event: Event) {
    (exists r :: r in db.events && r.sourceId == id && r.sequence == sequence && r.event == event)
    || (exists t :: t in db.tombstones && Records(t, id, sequence, event))
  }

  predicate Records(t: Tombstone, id: Uuid, sequence: int, event: Event) {
    t.sourceId == id && t.sequence == sequence && t.eventId == event.id && t.digest == event
  }

  lemma {:induction false} NoRowMatches(rows: seq<EventRow>, id: Uuid, sequence: int, eventId: Uuid)
    requires forall r :: r in rows ==> !EventMatches(r, id, sequence, eventId)
    ensures MatchingRows(rows, id, sequence, eventId) == []
  {
    if rows != [] { NoRowMatches(rows[..|rows| - 1], id, sequence, eventId); }
  }

  lemma {:induction false} OneRowMatches(rows: seq<EventRow>, id: Uuid, sequence: int, eventId: Uuid, row: EventRow)
    requires Ascending(rows, EventRowId) && row in rows && EventMatches(row, id, sequence, eventId)
    requires forall r :: r in rows && r != row ==> !EventMatches(r, id, sequence, eventId)
    ensures MatchingRows(rows, id, sequence, eventId) == [MatchingEvent(row.sequence, row.event.id, row.event)]
  {
    var m := |rows| - 1;
    if rows[m] == row {
      forall r | r in rows[..m] ensures r != row {
        var i :| 0 <= i < m && rows[..m][i] == r;
        assert EventRowId(rows[i]) < EventRowId(rows[m]);
      }
      NoRowMatches(rows[..m], id, sequence, eventId);
    } else {
      OneRowMatches(rows[..m], id, sequence, eventId, row);
    }
  }

  lemma {:induction false} NoTombstoneMatches(rows: seq<Tombstone>, id: Uuid, sequence: int, eventId: Uuid)
    requires forall r :: r in rows ==> !TombstoneMatches(r, id, sequence, eventId)
    ensures MatchingTombstones(rows, id, sequence, eventId) == []
  {
    if rows != [] { NoTombstoneMatches(rows[..|rows| - 1], id, sequence, eventId); }
  }

  lemma {:induction false} OneTombstoneMatches(rows: seq<Tombstone>, id: Uuid, sequence: int, eventId: Uuid, row: Tombstone)
    requires Ascending(rows, TombstoneId) && row in rows && TombstoneMatches(row, id, sequence, eventId)
    requires forall r :: r in rows && r != row ==> !TombstoneMatches(r, id, sequence, eventId)
    ensures MatchingTombstones(rows, id, sequence, eventId) == [MatchingEvent(row.sequence, row.eventId, row.digest)]
  {
    var m := |rows| - 1;
    if rows[m] == row {
      forall r | r in rows[..m] ensures r != row {
        var i :| 0 <= i < m && rows[..m][i] == r;
        assert TombstoneId(rows[i]) < TombstoneId(rows[m]);
      }
      NoTombstoneMatches(rows[..m], id, sequence, eventId);
    } else {
      OneTombstoneMatches(rows[..m], id, sequence, eventId, row);
    }
  }

  lemma RememberedMatchesOnce(db: Db, id: Uuid, sequence: int, event: Event)
    requires TracesDistinct(db) && RowIdsSound(db) && Remembered(db, id, sequence, event)
    ensures MatchingEvents(db, id, sequence, event.id) == [MatchingEvent(sequence, event.id, event)]
  {
    hide MatchingRows, MatchingTombstones;
    if r :| r in db.events && r.sourceId == id && r.sequence == sequence && r.event == event {
      OneRowMatches(db.events, id, sequence, event.id, r);
      NoTombstoneMatches(db.tombstones, id, sequence, event.id);
    } else {
      var t :| t in db.tombstones && Records(t, id, sequence, event);
      forall r | r in db.events ensures !EventMatches(r, id, sequence, event.id) {
        assert !TombstoneMatches(t, r.sourceId, r.sequence, r.event.id);
      }
      NoRowMatches(db.events, id, sequence, event.id);
      OneTombstoneMatches(db.tombstones, id, sequence, event.id, t);
    }
  }

  lemma MatchIsRemembered(db: Db, id: Uuid, sequence: int, event: Event)
    requires MatchingEvent(sequence, event.id, event) in MatchingEvents(db, id, sequence, event.id)
    ensures Remembered(db, id, sequence, event)
  {
    hide MatchingRows, MatchingTombstones;
    var m := MatchingEvent(sequence, event.id, event);
    MatchingRowsAreThose(db.events, id, sequence, event.id);
    MatchingTombstonesAreThose(db.tombstones, id, sequence, event.id);
    assert m in MatchingRows(db.events, id, sequence, event.id) || m in MatchingTombstones(db.tombstones, id, sequence, event.id);
  }

  /** A delivery is taken for a duplicate exactly when that very delivery is on record. */
  lemma DuplicateIffRemembered(db: Db, key: string, sequence: int, event: Event, bytes: nat, receivedAt: int)
    requires Sound(db) && 0 < sequence && key in db.sources && db.sources[key].pinned == Some(event.sourceId)
    ensures IngestEvent(db, key, sequence, event, bytes, receivedAt).result == Ok(Duplicate)
       <==> Remembered(db, event.sourceId, sequence, event)
  {
    hide Remembered, MatchingEvents, WithinCheckpoint, CursorsSound, OutboxSound, InsertEvent, TracesDistinct, RowIdsSound;
    var m := MatchingEvent(sequence, event.id, event);
    if Remembered(db, event.sourceId, sequence, event) {
      RememberedMatchesOnce(db, event.sourceId, sequence, event);
    }
    if MatchingEvents(db, event.sourceId, sequence, event.id) == [m] {
      assert m in MatchingEvents(db, event.sourceId, sequence, event.id);
      MatchIsRemembered(db, event.sourceId, sequence, event);
    }
  }

  /** A trace of this sequence or of this event identity exists for the source. */
  ghost predicate TracedAs(db: Db, id: Uuid, sequence: int, eventId: Uuid) {
    || (exists r :: r in db.events && r.sourceId == id && (r.sequence == sequence || r.event.id == eventId))
    || (exists t :: t in db.tombstones && t.sourceId == id && (t.sequence == sequence || t.eventId == eventId))
  }

  lemma TracedIffTracedAs(db: Db, id: Uuid, sequence: int, eventId: Uuid)
    ensures Traced(db, id, sequence, eventId) <==> TracedAs(db, id, sequence, eventId)
  {
  }

  /**
   * Every delivery gets the one answer it is due: a wrong caller is refused, what is on record is a duplicate, what
   * contradicts the record is a conflict, and of the rest exactly the next sequence is inserted.
   */
  lemma EveryDeliveryIsAnswered(db: Db, key: string, sequence: int, event: Event, bytes: nat, receivedAt: int)
    requires Sound(db)
    ensures var r := IngestEvent(db, key, sequence, event, bytes, receivedAt).result;
            if sequence <= 0 then r == Err(InvalidSequence(sequence))
            else if key !in db.sources then r == Err(SourceNotRegistered(key))
            else if db.sources[key].pinned.None? then r == Err(SourceNotPinned(key))
            else if db.sources[key].pinned != Some(event.sourceId) then
              r == Err(SourceIdentityChanged(key, db.sources[key].pinned.value, event.sourceId))
            else
              && (Remembered(db, event.sourceId, sequence, event) ==> r == Ok(Duplicate))
              && (TracedAs(db, event.sourceId, sequence, event.id) && !Remembered(db, event.sourceId, sequence, event) ==>
                    r == Err(ConflictingEvent(event.sourceId, sequence, event.id)))
              && (!TracedAs(db, event.sourceId, sequence, event.id) ==>
                    var cursor := db.sources[key].cursor;
                    if cursor == 0x7FFF_FFFF_FFFF_FFFF then r == Err(CursorExhausted)
                    else if sequence == cursor + 1 then r.Ok? && r.value.Inserted?
                    else r == Err(UnexpectedSequence(cursor + 1, sequence)))
  {
    hide Sound, MatchingEvents, Traced, TracedAs, Remembered, InsertEvent;
    TracedIffTracedAs(db, event.sourceId, sequence, event.id);
    MatchingEmptyIffUntraced(db, event.sourceId, sequence, event.id);
    if 0 < sequence && key in db.sources && db.sources[key].pinned == Some(event.sourceId) {
      DuplicateIffRemembered(db, key, sequence, event, bytes, receivedAt);
      RememberedIsTraced(db, event.sourceId, sequence, event);
    }
  }

  lemma RememberedIsTraced(db: Db, id: Uuid, sequence: int, event: Event)
    ensures Remembered(db, id, sequence, event) ==> TracedAs(db, id, sequence, event.id)
  {
  }

  /** Exactly this range is on record as lost. */
  ghost predicate LostOnRecord(db: Db, id: Uuid, lostFrom: int, lostThrough: int) {
    exists g :: g in db.gaps && g.sourceId == id && g.lostFrom == lostFrom && g.lostThrough == lostThrough
  }

  /** The same for declared losses: what is on record is a duplicate, and of the rest only what starts at the cursor is recorded. */
  lemma EveryGapIsAnswered(db: Db, key: string, requestedAfter: int, lostThrough: int, receivedAt: int)
    requires Sound(db)
    ensures var t := RecordGap(db, key, requestedAfter, lostThrough, receivedAt);
            if requestedAfter < 0 || lostThrough <= requestedAfter then t == Transaction(db, Err(InvalidGap(requestedAfter, lostThrough)))
            else if key !in db.sources then t == Transaction(db, Err(SourceNotRegistered(key)))
            else if db.sources[key].pinned.None? then t == Transaction(db, Err(SourceNotPinned(key)))
            else
              var id, source := db.sources[key].pinned.value, db.sources[key];
              if LostOnRecord(db, id, requestedAfter + 1, lostThrough) then t == Transaction(db, Ok(DuplicateGap))
              else if source.cursor != requestedAfter then
                t == Transaction(db, Err(UnexpectedGapCursor(source.cursor, requestedAfter)))
              else
                && |t.db.gaps| > 0
                && var g := t.db.gaps[|t.db.gaps| - 1];
                && t.result == Ok(Recorded(g.id)) && t.db.gaps == db.gaps + [g] && (forall h :: h in db.gaps ==> h.id < g.id)
                && g == GapRow(g.id, key, id, source.localLabel, requestedAfter + 1, lostThrough, receivedAt)
                && t.db.events == db.events && t.db.tombstones == db.tombstones && t.db.outbox == db.outbox
                && t.db.sources == db.sources[key := Source(source.localLabel, Some(id), lostThrough)]
                && forall other :: Checkpoint(t.db, other) == if other == id then lostThrough else Checkpoint(db, other)
  {
    hide TracesDistinct, OutboxSound, RowIdsSound, GapRecorded;
    if key in db.sources && db.sources[key].pinned.Some? {
      GapOnRecordIff(db, db.sources[key].pinned.value, requestedAfter + 1, lostThrough);
      NewGapIdIsLargest(db);
    }
  }

  lemma GapOnRecordIff(db: Db, id: Uuid, lostFrom: int, lostThrough: int)
    requires Sound(db)
    ensures GapRecorded(db, id, lostFrom, lostThrough) <==> LostOnRecord(db, id, lostFrom, lostThrough)
    ensures LostOnRecord(db, id, lostFrom, lostThrough) ==> lostThrough <= Checkpoint(db, id)
  {
  }

  lemma NewGapIdIsLargest(db: Db)
    requires Sound(db)
    ensures forall h :: h in db.gaps ==> h.id < NextId(db.gaps, GapRowId)
  {
    NewRowIdIsLargest(db.gaps, GapRowId);
    assert forall h :: h in db.gaps ==> GapRowId(h) < NextId(db.gaps, GapRowId);
  }

  // ---- What the settings operations answer ----

  /** One to 200 characters, none of them a control character. */
  ghost predicate Acceptable(text: string) {
    1 <= |text| <= 200 && Protocol.Printable(text)
  }

  lemma AcceptableIff(text: string)
    ensures ValidLocalText(text) <==> Acceptable(text)
  {
    if ValidLocalText(text) {
      forall i | 0 <= i < |text| ensures !Protocol.IsControl(text[i]) {
        assert text[i] in text;
      }
    }
  }

  /** Only the row of this setting differs. */
  ghost predicate OnlySource(db: Db, key: string, source: Source, after: Db) {
    after == db.(sources := db.sources[key := source])
  }

  /** Registering relabels a known setting and creates an unknown one unpinned at 0; bad texts change nothing. */
  lemma EveryRegistrationIsAnswered(db: Db, key: string, localLabel: string)
    ensures var t := RegisterSource(db, key, localLabel);
            if !Acceptable(key) then t == Transaction(db, Err(InvalidLocalText("source key")))
            else if !Acceptable(localLabel) then t == Transaction(db, Err(InvalidLocalText("source label")))
            else if key in db.sources then
              var source := Source(localLabel, db.sources[key].pinned, db.sources[key].cursor);
              t.result == Ok(Existing(source)) && OnlySource(db, key, source, t.db)
            else t.result == Ok(Created(Source(localLabel, None, 0))) && OnlySource(db, key, Source(localLabel, None, 0), t.db)
  {
    hide ValidLocalText, Acceptable;
    AcceptableIff(key);
    AcceptableIff(localLabel);
  }

  /** Another setting holds the identity. */
  ghost predicate HeldByAnother(db: Db, key: string, id: Uuid) {
    exists other :: other in db.sources && other != key && db.sources[other].pinned == Some(id)
  }

  /** Pinning and replacing give an identity one owner and put it back where it is known to stand; nothing else changes. */
  lemma EveryPinIsAnswered(db: Db, key: string, id: Uuid)
    requires Sound(db)
    ensures var t := PinSource(db, key, id);
            if key !in db.sources then t == Transaction(db, Err(SourceNotRegistered(key)))
            else if db.sources[key].pinned == Some(id) then t == Transaction(db, Ok(AlreadyPinned))
            else if db.sources[key].pinned.Some? then
              t == Transaction(db, Err(SourceIdentityChanged(key, db.sources[key].pinned.value, id)))
            else if HeldByAnother(db, key, id) then t == Transaction(db, Err(DuplicateSourceRegistration(id)))
            else t.result == Ok(NewlyPinned) && OnlySource(db, key, Source(db.sources[key].localLabel, Some(id), Checkpoint(db, id)), t.db)
    ensures var t := ReplaceSource(db, key, id);
            if key !in db.sources then t == Transaction(db, Err(SourceNotRegistered(key)))
            else if HeldByAnother(db, key, id) then t == Transaction(db, Err(DuplicateSourceRegistration(id)))
            else t.result == Ok(()) && OnlySource(db, key, Source(db.sources[key].localLabel, Some(id), Checkpoint(db, id)), t.db)
    ensures var t := ReleaseSource(db, key);
            if key !in db.sources then t == Transaction(db, Err(SourceNotRegistered(key)))
            else t.result == Ok(()) && OnlySource(db, key, Source(db.sources[key].localLabel, None, 0), t.db)
  {
    hide KnownHighWatermark, TracesDistinct, RowIdsSound, OutboxSound;
    WatermarkIsCheckpoint(db, id);
    assert OwnedElsewhere(db, key, id) <==> HeldByAnother(db, key, id);
  }

  /** Delivering an inserted event again, at any time, is a duplicate and changes nothing. */
  lemma RedeliveryIsDuplicate(db: Db, key: string, sequence: int, event: Event, bytes: nat, receivedAt: int, again: int)
    requires Sound(db)
    requires var r := IngestEvent(db, key, sequence, event, bytes, receivedAt).result; r.Ok? && r.value.Inserted?
    ensures var after := IngestEvent(db, key, sequence, event, bytes, receivedAt).db;
            IngestEvent(after, key, sequence, event, bytes, again) == Transaction(after, Ok(Duplicate))
  {
    hide Sound, IngestEvent, Traced;
    IngestInsertsOnlyNext(db, key, sequence, event, bytes, receivedAt);
    IngestKeepsSound(db, key, sequence, event, bytes, receivedAt);
    var after := IngestEvent(db, key, sequence, event, bytes, receivedAt).db;
    assert after.events[|db.events|] in after.events;
    DuplicateIffRemembered(after, key, sequence, event, bytes, again);
    IngestInsertsOnlyNext(after, key, sequence, event, bytes, again);
  }

  /** Declaring a recorded gap again, at any time, is a duplicate and changes nothing. */
  lemma GapRedeliveryIsDuplicate(db: Db, key: string, requestedAfter: int, lostThrough: int, receivedAt: int, again: int)
    requires var r := RecordGap(db, key, requestedAfter, lostThrough, receivedAt).result; r.Ok? && r.value.Recorded?
    ensures var after := RecordGap(db, key, requestedAfter, lostThrough, receivedAt).db;
            RecordGap(after, key, requestedAfter, lostThrough, again) == Transaction(after, Ok(DuplicateGap))
  {
    var after := RecordGap(db, key, requestedAfter, lostThrough, receivedAt).db;
    assert after.gaps[|db.gaps|] in after.gaps;
  }

  lemma PruneEventRemembers(db: Db, row: EventRow, now: int, id: Uuid, sequence: int, event: Event)
    requires Sound(db) && row in db.events && Remembered(db, id, sequence, event)
    ensures Remembered(PruneEvent(db, row, now), id, sequence, event)
  {
    hide PruneEvent, WithinCheckpoint, CursorsSound, OutboxSound, TracesDistinct, RowIdsSound;
    assert row.event.sourceId == row.sourceId by { EventsKnowTheirSource(db, row); }
    PruneEventMoves(db, row, now);
    var after := PruneEvent(db, row, now);
    if r :| r in db.events && r.sourceId == id && r.sequence == sequence && r.event == event {
      if r == row {
        assert after.tombstones[|db.tombstones|] == Grave(db, row, now);
        assert Grave(db, row, now) in after.tombstones;
      }
    } else {
      var t :| t in db.tombstones && Records(t, id, sequence, event);
      assert t in after.tombstones;
    }
  }

  lemma EventsKnowTheirSource(db: Db, row: EventRow)
    requires Sound(db) && row in db.events
    ensures row.event.sourceId == row.sourceId
  {
  }

  /** Pruning history does not make replays look new: a pruned delivery is still on record as a tombstone. */
  lemma {:induction false} PruningKeepsReplays(db: Db, selected: seq<EventRow>, now: int, id: Uuid, sequence: int, event: Event)
    requires Sound(db) && Distinct(selected) && forall r :: r in selected ==> r in db.events
    requires Remembered(db, id, sequence, event)
    ensures Sound(PruneEvents(db, selected, now)) && Remembered(PruneEvents(db, selected, now), id, sequence, event)
  {
    hide Sound, Remembered, PruneEvent;
    PruneEventsSound(db, selected, now);
    if selected != [] {
      var m := |selected| - 1;
      assert selected[m] !in selected[..m];
      PruneEventsSound(db, selected[..m], now);
      PruningKeepsReplays(db, selected[..m], now, id, sequence, event);
      PruneEventRemembers(PruneEvents(db, selected[..m], now), selected[m], now, id, sequence, event);
    }
  }

  /** A batch keeps the events its selection left, and the tombstones that are not among the outdated ones it deletes. */
  lemma WhatABatchKeeps(db: Db, historyNow: int, tombstoneNow: int)
    requires Sound(db)
    ensures var pruned := PruneEvents(db, SelectedEvents(db, historyNow).selected, tombstoneNow);
            var gone := OutdatedTombstones(pruned.tombstones, tombstoneNow - HISTORY_RETENTION);
            var after := MaintainHistory(db, historyNow, tombstoneNow).0;
            && Sound(pruned) && after.events == pruned.events
            && (forall t :: t in after.tombstones <==> t in pruned.tombstones && t !in gone)
            && (forall t :: t in gone ==>
                  t in pruned.tombstones && TombstoneOutdated(t, pruned.tombstones, tombstoneNow - HISTORY_RETENTION))
  {
    hide PruneEvents, SelectedEvents, OutdatedGaps, OutdatedTombstones, TombstoneOutdated, WithinCheckpoint, CursorsSound, TracesDistinct, OutboxSound, Sum, Filter;
    SelectedEventsAreCandidates(db, historyNow);
    PruneEventsSound(db, SelectedEvents(db, historyNow).selected, tombstoneNow);
    var pruned := PruneEvents(db, SelectedEvents(db, historyNow).selected, tombstoneNow);
    var gone := OutdatedTombstones(pruned.tombstones, tombstoneNow - HISTORY_RETENTION);
    OutdatedTombstonesAreThose(pruned.tombstones, tombstoneNow - HISTORY_RETENTION);
    WithoutTotals(pruned.tombstones, TombstoneId, gone, TombstoneId);
  }

  lemma RecordedOnce(db: Db, id: Uuid, sequence: int, event: Event)
    requires Sound(db)
    ensures forall r, t :: r in db.events && t in db.tombstones && r.sourceId == id && r.sequence == sequence && r.event == event ==>
              !Records(t, id, sequence, event)
    ensures forall s, t | s in db.tombstones && t in db.tombstones :: Records(s, id, sequence, event) && Records(t, id, sequence, event) ==> s == t
  {
    forall s, t | s in db.tombstones && t in db.tombstones && Records(s, id, sequence, event) && Records(t, id, sequence, event)
      ensures s == t
    {
      assert TombstoneMatches(t, s.sourceId, s.sequence, s.eventId);
    }
    forall r, t | r in db.events && t in db.tombstones && r.sourceId == id && r.sequence == sequence && r.event == event
      ensures !Records(t, id, sequence, event)
    {
      assert !TombstoneMatches(t, r.sourceId, r.sequence, r.event.id);
    }
  }

  /**
   * Over a whole maintenance batch a delivery on record is forgotten if and only if its tombstone is among the
   * outdated ones the batch deletes. Such a tombstone was there before or was written by this batch, at its own
   * instant; it is more than 30 days old or has 10,000 newer ones.
   */
  lemma ReplayForgottenIff(db: Db, historyNow: int, tombstoneNow: int, id: Uuid, sequence: int, event: Event)
    requires Sound(db) && Remembered(db, id, sequence, event)
    ensures var buried := PruneEvents(db, SelectedEvents(db, historyNow).selected, tombstoneNow).tombstones;
            var gone := OutdatedTombstones(buried, tombstoneNow - HISTORY_RETENTION);
            && (Remembered(MaintainHistory(db, historyNow, tombstoneNow).0, id, sequence, event)
                <==> forall t :: t in gone ==> !Records(t, id, sequence, event))
            && forall t :: t in gone ==>
                 && (t in db.tombstones || t.createdAt == tombstoneNow)
                 && (t.createdAt < tombstoneNow - MONTH || |NewerThan(buried, t.createdAt, t.id)| >= 10_000)
  {
    hide Sound, PruneEvents, SelectedEvents, OutdatedTombstones, CountNewer, NewerThan, MaintainHistory, Records, Distinct, Remembered, PrunedBy;
    SelectionIsDistinct(db, historyNow);
    WhatABatchKeeps(db, historyNow, tombstoneNow);
    BatchBuries(db, historyNow, tombstoneNow);
    PruningKeepsReplays(db, SelectedEvents(db, historyNow).selected, tombstoneNow, id, sequence, event);
    ForgottenWith(db, historyNow, tombstoneNow, id, sequence, event);
    var selected := SelectedEvents(db, historyNow).selected;
    var buried := PruneEvents(db, selected, tombstoneNow).tombstones;
    forall t | t in OutdatedTombstones(buried, tombstoneNow - HISTORY_RETENTION)
      ensures t in db.tombstones || t.createdAt == tombstoneNow
      ensures t.createdAt < tombstoneNow - MONTH || |NewerThan(buried, t.createdAt, t.id)| >= 10_000
    {
      TombstoneRank(buried, t);
      OldOrBuried(db, selected, tombstoneNow, buried, t);
    }
  }

  lemma OldOrBuried(db: Db, selected: seq<EventRow>, now: int, buried: seq<Tombstone>, t: Tombstone)
    requires BuriedAt(db, selected, now, buried) && t in buried
    ensures t in db.tombstones || t.createdAt == now
  {
    var n := |db.tombstones|;
    var i :| 0 <= i < |buried| && buried[i] == t;
    if i < n {
      assert buried[..n][i] == t;
    } else {
      assert GraveOf(buried[n + (i - n)], selected[i - n], now);
    }
  }

  lemma ForgottenWith(db: Db, historyNow: int, tombstoneNow: int, id: Uuid, sequence: int, event: Event)
    requires Sound(db)
    requires Remembered(PruneEvents(db, SelectedEvents(db, historyNow).selected, tombstoneNow), id, sequence, event)
    ensures var buried := PruneEvents(db, SelectedEvents(db, historyNow).selected, tombstoneNow).tombstones;
            Remembered(MaintainHistory(db, historyNow, tombstoneNow).0, id, sequence, event)
            <==> forall t :: t in OutdatedTombstones(buried, tombstoneNow - HISTORY_RETENTION) ==> !Records(t, id, sequence, event)
  {
    hide Sound, PruneEvents, SelectedEvents, OutdatedTombstones, TombstoneOutdated, MaintainHistory, Records, Distinct;
    WhatABatchKeeps(db, historyNow, tombstoneNow);
    RecordedOnce(PruneEvents(db, SelectedEvents(db, historyNow).selected, tombstoneNow), id, sequence, event);
  }

  lemma SelectionIsDistinct(db: Db, historyNow: int)
    requires Sound(db)
    ensures Distinct(SelectedEvents(db, historyNow).selected)
    ensures forall r :: r in SelectedEvents(db, historyNow).selected ==> r in db.events
  {
    hide SelectedEvents, Distinct;
    SelectedEventsAreCandidates(db, historyNow);
  }

  // ---- How long a pruned delivery is known ----

  const MONTH := 30 * 24 * 3600 * 1000

  /** What is newer after burying was newer before, or is one of the others just buried. */
  lemma NewerAfterBurying(before: seq<Tombstone>, after: seq<Tombstone>, t: Tombstone)
    requires |before| <= |after| && after[..|before|] == before
    ensures |NewerThan(after, t.createdAt, t.id)| <= |NewerThan(before, t.createdAt, t.id)| + |after| - |before|
    ensures t in after[|before|..] ==>
              |NewerThan(after, t.createdAt, t.id)| < |NewerThan(before, t.createdAt, t.id)| + |after| - |before|
  {
    var buried := set x | x in after[|before|..];
    SetOfSeq(after[|before|..]);
    var all, earlier := NewerThan(after, t.createdAt, t.id), NewerThan(before, t.createdAt, t.id);
    forall x | x in all ensures x in earlier + buried {
      var i :| 0 <= i < |after| && after[i] == x;
      if i < |before| { assert before[i] == x; } else { assert after[|before|..][i - |before|] == x; }
    }
    SubsetSize(all, earlier + buried);
    UnionSize(earlier, buried);
    if t in buried {
      assert all <= earlier + (buried - {t});
      SubsetSize(all, earlier + (buried - {t}));
      UnionSize(earlier, buried - {t});
    }
  }

  lemma {:induction false} SetOfSeq<T>(s: seq<T>)
    ensures |set x | x in s| <= |s|
  {
    if s != [] {
      var m := |s| - 1;
      SetOfSeq(s[..m]);
      assert (set x | x in s) == (set x | x in s[..m]) + {s[m]};
    }
  }

  lemma UnionSize<T>(a: set<T>, b: set<T>)
    ensures |a + b| <= |a| + |b|
  {
    assert a + b == a + (b - a);
    assert |a + b| == |a| + |b - a|;
    SubsetSize(b - a, b);
  }

  /** How many events a batch takes out of history. */
  ghost function PrunedBy(db: Db, historyNow: int, tombstoneNow: int): int {
    |db.events| - |MaintainHistory(db, historyNow, tombstoneNow).0.events|
  }

  lemma BatchBuries(db: Db, historyNow: int, tombstoneNow: int)
    requires Sound(db)
    ensures var selected := SelectedEvents(db, historyNow).selected;
            var pruned := PruneEvents(db, selected, tombstoneNow);
            && BuriedAt(db, selected, tombstoneNow, pruned.tombstones) && Ascending(pruned.tombstones, TombstoneId)
            && |selected| == PrunedBy(db, historyNow, tombstoneNow)
            && forall r :: r in MaintainHistory(db, historyNow, tombstoneNow).0.events <==> r in db.events && r !in selected
  {
    hide PruneEvents, SelectedEvents, OutdatedGaps, OutdatedTombstones, Candidates, WithinCheckpoint, CursorsSound, TracesDistinct, OutboxSound, Sum, CountNewer;
    SelectionIsDistinct(db, historyNow);
    var selected := SelectedEvents(db, historyNow).selected;
    PruningBuries(db, selected, tombstoneNow);
    PruneEventsSound(db, selected, tombstoneNow);
    MaintenanceReportIsExact(db, historyNow, tombstoneNow);
  }

  /** A tombstone at most 30 days old with fewer than 10,000 newer ones, the batch's own included, survives it. */
  lemma TombstoneOutlivesBatch(db: Db, historyNow: int, tombstoneNow: int, t: Tombstone)
    requires Sound(db) && t in db.tombstones && SparesTombstone(db, historyNow, tombstoneNow, t)
    ensures t in MaintainHistory(db, historyNow, tombstoneNow).0.tombstones
  {
    hide MaintainHistory, PruneEvents, SelectedEvents, Sound, CountNewer, NewerThan, OutdatedTombstones;
    WhatABatchKeeps(db, historyNow, tombstoneNow);
    BatchBuries(db, historyNow, tombstoneNow);
    var buried := PruneEvents(db, SelectedEvents(db, historyNow).selected, tombstoneNow).tombstones;
    TombstoneRank(buried, t);
    NewerAfterBurying(db.tombstones, buried, t);
    assert buried[..|db.tombstones|] == db.tombstones;
    var i :| 0 <= i < |db.tombstones| && db.tombstones[i] == t;
    assert buried[i] == t;
  }

  /** A delivery that leaves history is on record as a tombstone of this batch, unless 10,000 tombstones are newer already. */
  lemma PrunedDeliveryIsBuried(db: Db, historyNow: int, tombstoneNow: int, row: EventRow) returns (t: Tombstone)
    requires Sound(db) && row in db.events && row !in MaintainHistory(db, historyNow, tombstoneNow).0.events
    requires |set x | x in db.tombstones && x.createdAt > tombstoneNow| + PrunedBy(db, historyNow, tombstoneNow) <= 10_000
    ensures t in MaintainHistory(db, historyNow, tombstoneNow).0.tombstones
    ensures t.createdAt == tombstoneNow && Records(t, row.sourceId, row.sequence, row.event)
  {
    hide MaintainHistory, PruneEvents, SelectedEvents, Sound, CountNewer, OutdatedTombstones, NewerThan, PrunedBy;
    WhatABatchKeeps(db, historyNow, tombstoneNow);
    BatchBuries(db, historyNow, tombstoneNow);
    var selected := SelectedEvents(db, historyNow).selected;
    var buried := PruneEvents(db, selected, tombstoneNow).tombstones;
    var n := |db.tombstones|;
    var k :| 0 <= k < |selected| && selected[k] == row;
    t := buried[n + k];
    assert buried[n..][k] == t;
    TombstoneRank(buried, t);
    NewerAfterBurying(db.tombstones, buried, t);
    OlderIdsAreNotNewer(db.tombstones, buried, n + k);
  }

  /** Against a tombstone that was added later only those with a later date count as newer. */
  lemma OlderIdsAreNotNewer(before: seq<Tombstone>, after: seq<Tombstone>, at: nat)
    requires Ascending(after, TombstoneId) && |before| <= at < |after| && after[..|before|] == before
    ensures |NewerThan(before, after[at].createdAt, after[at].id)|
         <= |set x | x in before && x.createdAt > after[at].createdAt|
  {
    var newer := NewerThan(before, after[at].createdAt, after[at].id);
    forall x | x in newer ensures x.createdAt > after[at].createdAt {
      var i :| 0 <= i < |before| && before[i] == x;
      assert after[i] == x && TombstoneId(after[i]) < TombstoneId(after[at]);
    }
    SubsetSize(newer, set x | x in before && x.createdAt > after[at].createdAt);
  }

  /**
   * The retention promise of one batch: what leaves history or the list of losses does so for cause, an event that
   * leaves has a tombstone of this batch, and a tombstone leaves only by age or rank.
   */
  ghost predicate RetainsAsPromised(db: Db, historyNow: int, tombstoneNow: int, after: Db) {
    && (forall r :: r in db.events && r !in after.events ==>
          && Closed(db.outbox, r)
          && (PastRetention(db.events, r, historyNow) || Sum(db.events, EventBytes) > 134_217_728)
          && (|set x | x in db.tombstones && x.createdAt > tombstoneNow| + |db.events| - |after.events| <= 10_000 ==>
                exists t :: t in after.tombstones && t.createdAt == tombstoneNow && Records(t, r.sourceId, r.sequence, r.event)))
    && (forall g :: g in db.gaps && g !in after.gaps ==> GapPastRetention(db.gaps, g, historyNow))
    && (forall t :: t in db.tombstones && t !in after.tombstones ==>
          || t.createdAt < tombstoneNow - MONTH
          || |NewerThan(db.tombstones, t.createdAt, t.id)| + |db.events| - |after.events| >= 10_000)
  }

  lemma BatchRetainsAsPromised(db: Db, historyNow: int, tombstoneNow: int)
    requires Sound(db)
    ensures RetainsAsPromised(db, historyNow, tombstoneNow, MaintainHistory(db, historyNow, tombstoneNow).0)
  {
    hide MaintainHistory, Sound, Closed, PastRetention, GapPastRetention, NewerThan, Sum, Records;
    var after := MaintainHistory(db, historyNow, tombstoneNow).0;
    HistoryLeavesOnlyForCause(db, historyNow, tombstoneNow);
    forall r | r in db.events && r !in after.events
                && |set x | x in db.tombstones && x.createdAt > tombstoneNow| + |db.events| - |after.events| <= 10_000
      ensures exists t :: t in after.tombstones && t.createdAt == tombstoneNow && Records(t, r.sourceId, r.sequence, r.event)
    {
      var t := PrunedDeliveryIsBuried(db, historyNow, tombstoneNow, r);
    }
    forall t | t in db.tombstones && t !in after.tombstones
      ensures t.createdAt < tombstoneNow - MONTH
           || |NewerThan(db.tombstones, t.createdAt, t.id)| + |db.events| - |after.events| >= 10_000
    {
      if SparesTombstone(db, historyNow, tombstoneNow, t) {
        TombstoneOutlivesBatch(db, historyNow, tombstoneNow, t);
      }
    }
  }

  function Later(db: Db, ops: seq<Op>): Db
    decreases |ops|
  {
    if ops == [] then db else Later(Apply(db, ops[0]), ops[1..])
  }

  /** This batch comes at most 30 days after the tombstone and sees fewer than 10,000 newer ones. */
  ghost predicate SparesTombstone(db: Db, historyNow: int, tombstoneNow: int, t: Tombstone) {
    && tombstoneNow <= t.createdAt + MONTH
    && |NewerThan(db.tombstones, t.createdAt, t.id)| + PrunedBy(db, historyNow, tombstoneNow) < 10_000
  }

  ghost predicate AllSpare(db: Db, ops: seq<Op>, t: Tombstone)
    decreases |ops|
  {
    hide Apply, SparesTombstone;
    ops == []
    || ((ops[0].Maintain? ==> SparesTombstone(db, ops[0].historyNow, ops[0].tombstoneNow, t))
        && AllSpare(Apply(db, ops[0]), ops[1..], t))
  }

  lemma OnlyBatchesTouchTombstones(db: Db, op: Op)
    requires !op.Maintain?
    ensures Apply(db, op).tombstones == db.tombstones
  {
    hide KnownHighWatermark, MatchingEvents, GapRecorded, Window, DeliveryIn, RowAfter;
  }

  lemma {:induction false} TombstoneStays(db: Db, ops: seq<Op>, t: Tombstone)
    requires Sound(db) && t in db.tombstones && AllSpare(db, ops, t)
    ensures t in Later(db, ops).tombstones
    decreases |ops|
  {
    hide Sound, Apply, NewerThan, PrunedBy;
    if ops != [] {
      EveryOpKeepsSound(db, ops[0]);
      if ops[0].Maintain? {
        TombstoneOutlivesBatch(db, ops[0].historyNow, ops[0].tombstoneNow, t);
        MaintainIsBatch(db, ops[0]);
      } else {
        OnlyBatchesTouchTombstones(db, ops[0]);
      }
      TombstoneStays(Apply(db, ops[0]), ops[1..], t);
    }
  }

  lemma MaintainIsBatch(db: Db, op: Op)
    requires op.Maintain?
    ensures Apply(db, op) == MaintainHistory(db, op.historyNow, op.tombstoneNow).0
  {
  }

  /**
   * Retention does not make replays look new: a delivery that a batch takes out of history stays on record through
   * every later run whose batches come within 30 days of it, unless 10,000 tombstones are newer.
   */
  lemma PrunedDeliveryIsKnownForAMonth(db: Db, historyNow: int, tombstoneNow: int, row: EventRow, ops: seq<Op>)
    requires Sound(db) && row in db.events && row !in MaintainHistory(db, historyNow, tombstoneNow).0.events
    requires |set x | x in db.tombstones && x.createdAt > tombstoneNow| + PrunedBy(db, historyNow, tombstoneNow) <= 10_000
    requires var after := MaintainHistory(db, historyNow, tombstoneNow).0;
             forall t :: t in after.tombstones && Records(t, row.sourceId, row.sequence, row.event) ==> AllSpare(after, ops, t)
    ensures Remembered(Later(MaintainHistory(db, historyNow, tombstoneNow).0, ops), row.sourceId, row.sequence, row.event)
  {
    hide MaintainHistory, Sound, PrunedBy, Records, AllSpare, Later;
    var t := PrunedDeliveryIsBuried(db, historyNow, tombstoneNow, row);
    EveryOpKeepsSound(db, Maintain(historyNow, tombstoneNow));
    TombstoneStays(MaintainHistory(db, historyNow, tombstoneNow).0, ops, t);
  }

  /** Releasing a source and pinning the same identity again restores it exactly, cursor included. */
  lemma ReleaseAndPinRestores(db: Db, key: string, id: Uuid)
    requires Sound(db) && key in db.sources && db.sources[key].pinned == Some(id)
    ensures PinSource(ReleaseSource(db, key).db, key, id) == Transaction(db, Ok(NewlyPinned))
  {
    hide KnownHighWatermark, TracesDistinct, RowIdsSound, OutboxSound;
    var released := ReleaseSource(db, key).db;
    ReleaseKeepsSound(db, key);
    WatermarkIsCheckpoint(released, id);
    assert released.sources[key := db.sources[key]] == db.sources;
  }

  /** Taking over an identity under another setting resumes where the released one stopped. */
  lemma MovingAnIdentityKeepsItsPlace(db: Db, key: string, other: string, id: Uuid)
    requires Sound(db) && key in db.sources && db.sources[key].pinned == Some(id)
    requires other in db.sources && other != key && db.sources[other].pinned.None?
    ensures var moved := PinSource(ReleaseSource(db, key).db, other, id);
            moved.result == Ok(NewlyPinned) && other in moved.db.sources
            && moved.db.sources[other].cursor == db.sources[key].cursor
  {
    hide KnownHighWatermark, TracesDistinct, RowIdsSound, OutboxSound;
    ReleaseKeepsSound(db, key);
    WatermarkIsCheckpoint(ReleaseSource(db, key).db, id);
  }

  /** Replacing a source resumes the new identity at its known watermark, not at 0. */
  lemma ReplaceResumes(db: Db, key: string, id: Uuid)
    requires Sound(db) && ReplaceSource(db, key, id).result.Ok?
    ensures var after := ReplaceSource(db, key, id).db;
            key in after.sources && after.sources[key].pinned == Some(id) && after.sources[key].cursor == Checkpoint(db, id)
  {
    hide KnownHighWatermark, TracesDistinct, RowIdsSound, OutboxSound, CursorsSound;
    WatermarkIsCheckpoint(db, id);
  }
}
