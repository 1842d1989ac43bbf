/** Whole runs of the desktop database: what every reachable state satisfies. */
module Runs {
  import opened Base
  import opened Events
  import opened Rows
  import opened Tables
  import opened History
  import opened Dispatch

  datatype Op =
    | Register(key: string, localLabel: string)
    | Pin(key: string, id: Uuid)
    | Replace(key: string, id: Uuid)
    | Release(key: string)
    | Ingest(key: string, sequence: int, event: Event, bytes: nat, receivedAt: int)
    | DeclareGap(key: string, requestedAfter: int, lostThrough: int, receivedAt: int)
    | Maintain(historyNow: int, tombstoneNow: int)
    | DispatchRound(round: Round)
    | Requeue(now: int)

  function Apply(db: Db, op: Op): Db {
    match op
    case Register(key, localLabel) => RegisterSource(db, key, localLabel).db
    case Pin(key, id) => PinSource(db, key, id).db
    case Replace(key, id) => ReplaceSource(db, key, id).db
    case Release(key) => ReleaseSource(db, key).db
    case Ingest(key, sequence, event, bytes, receivedAt) => IngestEvent(db, key, sequence, event, bytes, receivedAt).db
    case DeclareGap(key, requestedAfter, lostThrough, receivedAt) =>
      RecordGap(db, key, requestedAfter, lostThrough, receivedAt).db
    case Maintain(historyNow, tombstoneNow) => MaintainHistory(db, historyNow, tombstoneNow).0
    case DispatchRound(round) => DispatchOutbox(db, round)
    case Requeue(now) => RequeuePermissionSuppressed(db, now)
  }

  // ---- Soundness of each transaction ----

  lemma RegisterKeepsSound(db: Db, key: string, localLabel: string)
    requires Sound(db)
    ensures Sound(RegisterSource(db, key, localLabel).db)
  {
    hide TracesDistinct, RowIdsSound, OutboxSound;
    var after := RegisterSource(db, key, localLabel).db;
    assert WithinCheckpoint(after);
    StaySound(db, after);
  }

  /** Sources may change freely as long as the cursor rule holds. */
  lemma StaySound(db: Db, after: Db)
    requires Sound(db) && after == db.(sources := after.sources) && CursorsSound(after)
    ensures Sound(after)
  {
    assert WithinCheckpoint(after);
    assert TracesDistinct(after);
    assert OutboxSound(after);
  }

  lemma AdoptKeepsSound(db: Db, key: string, id: Uuid)
    requires Sound(db) && key in db.sources && !OwnedElsewhere(db, key, id)
    ensures Sound(Adopt(db, key, id))
  {
    hide KnownHighWatermark, TracesDistinct, RowIdsSound, OutboxSound;
    WatermarkIsCheckpoint(db, id);
    StaySound(db, Adopt(db, key, id));
  }

  lemma ReleaseKeepsSound(db: Db, key: string)
    requires Sound(db)
    ensures Sound(ReleaseSource(db, key).db)
  {
    hide TracesDistinct, RowIdsSound, OutboxSound;
    StaySound(db, ReleaseSource(db, key).db);
  }

  /** The one place a delivery becomes durable: the next sequence of its source, never seen before. */
  ghost predicate Insertable(db: Db, key: string, sequence: int, event: Event) {
    && key in db.sources && db.sources[key].pinned == Some(event.sourceId)
    && sequence == db.sources[key].cursor + 1 && sequence > 0
    && !Traced(db, event.sourceId, sequence, event.id)
  }

  lemma IngestInsertsOnlyNext(db: Db, key: string, sequence: int, event: Event, bytes: nat, receivedAt: int)
    ensures var t := IngestEvent(db, key, sequence, event, bytes, receivedAt);
            if t.result.Ok? && t.result.value.Inserted?
            then Insertable(db, key, sequence, event) && t.db == InsertEvent(db, key, sequence, event, bytes, receivedAt)
            else t.db == db
  {
    MatchingEmptyIffUntraced(db, event.sourceId, sequence, event.id);
  }

  lemma InsertRaisesCheckpoint(db: Db, key: string, sequence: int, event: Event, bytes: nat, receivedAt: int)
    requires CursorsSound(db) && Insertable(db, key, sequence, event)
    ensures var after := InsertEvent(db, key, sequence, event, bytes, receivedAt);
            && CursorsSound(after)
            && Checkpoint(db, event.sourceId) == sequence - 1
            && forall id :: Checkpoint(after, id) == if id == event.sourceId then sequence else Checkpoint(db, id)
  {
  }

  lemma InsertKeepsTraces(db: Db, key: string, sequence: int, event: Event, bytes: nat, receivedAt: int)
    requires Sound(db) && Insertable(db, key, sequence, event)
    ensures var after := InsertEvent(db, key, sequence, event, bytes, receivedAt);
            WithinCheckpoint(after) && TracesDistinct(after)
  {
    hide RowIdsSound, OutboxSound;
    InsertRaisesCheckpoint(db, key, sequence, event, bytes, receivedAt);
    var after := InsertEvent(db, key, sequence, event, bytes, receivedAt);
    var row := after.events[|db.events|];
    assert forall r :: r in after.events <==> r in db.events || r == row;
  }

  lemma InsertKeepsOutbox(db: Db, key: string, sequence: int, event: Event, bytes: nat, receivedAt: int)
    requires RowIdsSound(db) && OutboxSound(db) && key in db.sources
    ensures var after := InsertEvent(db, key, sequence, event, bytes, receivedAt);
            RowIdsSound(after) && OutboxSound(after)
  {
    var after := InsertEvent(db, key, sequence, event, bytes, receivedAt);
    var row, out := after.events[|db.events|], after.outbox[|db.outbox|];
    forall r | r in db.events ensures r.id < row.id {
      var i :| 0 <= i < |db.events| && db.events[i] == r;
      if i < |db.events| - 1 {
        assert EventRowId(db.events[i]) < EventRowId(db.events[|db.events| - 1]);
      }
    }
    forall o | o in db.outbox ensures o.eventRow != row.id {
      assert HasOutbox(db.outbox, o.eventRow) && HasEvent(db.events, o.eventRow);
    }
    assert Ascending(after.events, EventRowId);
    assert Ascending(after.outbox, OutboxId);
    forall id ensures HasEvent(after.events, id) <==> HasOutbox(after.outbox, id) {
      assert HasEvent(db.events, id) <==> HasOutbox(db.outbox, id);
      assert HasEvent(after.events, id) <==> HasEvent(db.events, id) || id == row.id by {
        assert row in after.events;
        assert forall r :: r in after.events <==> r in db.events || r == row;
      }
      assert HasOutbox(after.outbox, id) <==> HasOutbox(db.outbox, id) || id == row.id by {
        assert out in after.outbox && out.eventRow == row.id;
        assert forall o :: o in after.outbox <==> o in db.outbox || o == out;
      }
    }
  }

  lemma IngestKeepsSound(db: Db, key: string, sequence: int, event: Event, bytes: nat, receivedAt: int)
    requires Sound(db)
    ensures Sound(IngestEvent(db, key, sequence, event, bytes, receivedAt).db)
  {
    hide IngestEvent, InsertEvent, WithinCheckpoint, CursorsSound, TracesDistinct, RowIdsSound, OutboxSound;
    IngestInsertsOnlyNext(db, key, sequence, event, bytes, receivedAt);
    if Insertable(db, key, sequence, event) {
      InsertRaisesCheckpoint(db, key, sequence, event, bytes, receivedAt);
      InsertKeepsTraces(db, key, sequence, event, bytes, receivedAt);
      InsertKeepsOutbox(db, key, sequence, event, bytes, receivedAt);
    }
  }

  /** What an accepted event looks like in the tables, and when its notification falls due. */
  ghost predicate Queued(db: Db, key: string, sequence: int, event: Event, bytes: nat, receivedAt: int, after: Db, row: EventRow,
                         item: OutboxRow) {
    && after.events == db.events + [row] && after.outbox == db.outbox + [item]
    && after.gaps == db.gaps && after.tombstones == db.tombstones
    && key in db.sources && after.sources == db.sources[key := Source(db.sources[key].localLabel, Some(event.sourceId), sequence)]
    && (forall id :: Checkpoint(after, id) == if id == event.sourceId then sequence else Checkpoint(db, id))
    && (forall r :: r in db.events ==> r.id < row.id) && (forall o :: o in db.outbox ==> o.id < item.id)
    && row.key == key && row.sourceId == event.sourceId && row.localLabel == db.sources[key].localLabel
    && row.sequence == sequence && row.event == event && row.bytes == bytes && row.receivedAt == receivedAt
    && (row.clockSkewed <==> receivedAt - event.occurredAt > 300_000 || event.occurredAt - receivedAt > 300_000)
    && item.eventRow == row.id && item.identifier == (event.sourceId, event.id)
    && item.state.Pending? && item.reason.None? && item.attempts == 0
    && forall now :: InWindow(after, now, Item(item, row)) <==> now >= receivedAt
  }

  /** A dispatch at this instant finds this item, event included, among what it has to settle. */
  ghost predicate InWindow(db: Db, now: int, item: Item) {
    HighWatermark(db.outbox, now).Some? && item in Window(db, HighWatermark(db.outbox, now).value, now)
  }

  lemma {:induction false} FindEventOf(events: seq<EventRow>, row: EventRow)
    requires Ascending(events, EventRowId) && row in events
    ensures FindEvent(events, row.id) == Some(row)
  {
    var found := FindEvent(events, row.id);
    if found.Some? { AscendingUnique(events, EventRowId, found.value, row); }
  }

  lemma NewRowIdIsLargest<T>(rows: seq<T>, id: T -> int)
    requires Ascending(rows, id)
    ensures forall r :: r in rows ==> id(r) < NextId(rows, id)
  {
    forall r | r in rows ensures id(r) < NextId(rows, id) {
      var i :| 0 <= i < |rows| && rows[i] == r;
      if i < |rows| - 1 { assert id(rows[i]) < id(rows[|rows| - 1]); }
    }
  }

  /**
   * A delivery is either refused, or a duplicate, or it becomes one history row and one pending notification that
   * every dispatch from its reception on finds, and none before.
   */
  lemma AcceptedDeliveryIsQueued(db: Db, key: string, sequence: int, event: Event, bytes: nat, receivedAt: int)
    requires Sound(db)
    requires var r := IngestEvent(db, key, sequence, event, bytes, receivedAt).result; r.Ok? && r.value.Inserted?
    ensures var t := IngestEvent(db, key, sequence, event, bytes, receivedAt);
            && |t.db.events| > 0 && |t.db.outbox| > 0
            && var row, item := t.db.events[|t.db.events| - 1], t.db.outbox[|t.db.outbox| - 1];
            && t.result.value == Inserted(row.id, item.id)
            && Queued(db, key, sequence, event, bytes, receivedAt, t.db, row, item)
  {
    hide Sound, IngestEvent, Traced, Window, HighWatermark, Due;
    IngestInsertsOnlyNext(db, key, sequence, event, bytes, receivedAt);
    IngestKeepsSound(db, key, sequence, event, bytes, receivedAt);
    InsertedIdentifiers(db, key, sequence, event, bytes, receivedAt);
    var after := IngestEvent(db, key, sequence, event, bytes, receivedAt).db;
    RaisedTo(db, key, sequence, event, bytes, receivedAt);
    NewRowsAreNew(db);
    var row, item := after.events[|db.events|], after.outbox[|db.outbox|];
    forall now ensures InWindow(after, now, Item(item, row)) <==> now >= receivedAt {
      DueFromReception(after, row, item, now);
    }
  }

  lemma InsertedIdentifiers(db: Db, key: string, sequence: int, event: Event, bytes: nat, receivedAt: int)
    requires var r := IngestEvent(db, key, sequence, event, bytes, receivedAt).result; r.Ok? && r.value.Inserted?
    ensures IngestEvent(db, key, sequence, event, bytes, receivedAt).result.value
         == Inserted(NextId(db.events, EventRowId), NextId(db.outbox, OutboxId))
  {
  }

  lemma RaisedTo(db: Db, key: string, sequence: int, event: Event, bytes: nat, receivedAt: int)
    requires Sound(db) && Insertable(db, key, sequence, event)
    ensures var after := InsertEvent(db, key, sequence, event, bytes, receivedAt);
            forall id :: Checkpoint(after, id) == if id == event.sourceId then sequence else Checkpoint(db, id)
  {
    InsertRaisesCheckpoint(db, key, sequence, event, bytes, receivedAt);
  }

  lemma NewRowsAreNew(db: Db)
    requires Sound(db)
    ensures forall r :: r in db.events ==> r.id < NextId(db.events, EventRowId)
    ensures forall o :: o in db.outbox ==> o.id < NextId(db.outbox, OutboxId)
  {
    NewRowIdIsLargest(db.events, EventRowId);
    NewRowIdIsLargest(db.outbox, OutboxId);
    assert forall r :: r in db.events ==> EventRowId(r) < NextId(db.events, EventRowId);
    assert forall o :: o in db.outbox ==> OutboxId(o) < NextId(db.outbox, OutboxId);
  }

  lemma DueFromReception(db: Db, row: EventRow, item: OutboxRow, now: int)
    requires Sound(db) && row in db.events && item in db.outbox && item.eventRow == row.id && item.state.Pending?
    ensures InWindow(db, now, Item(item, row)) <==> now >= item.nextAttemptAt
  {
    hide Window, WithinCheckpoint, CursorsSound, TracesDistinct, OutboxSound;
    FindEventOf(db.events, row);
    var high := HighWatermark(db.outbox, now);
    if high.Some? {
      WindowIsTheDueItems(db, high.value, now);
    }
  }

  ghost predicate GapInsertable(db: Db, key: string, requestedAfter: int, lostThrough: int) {
    && key in db.sources && db.sources[key].pinned.Some?
    && db.sources[key].cursor == requestedAfter && 0 <= requestedAfter < lostThrough
  }

  lemma GapInsertsOnlyNext(db: Db, key: string, requestedAfter: int, lostThrough: int, receivedAt: int)
    ensures var t := RecordGap(db, key, requestedAfter, lostThrough, receivedAt);
            if t.result.Ok? && t.result.value.Recorded?
            then GapInsertable(db, key, requestedAfter, lostThrough)
              && t.db == InsertGap(db, key, db.sources[key].pinned.value, requestedAfter, lostThrough, receivedAt)
            else t.db == db
  {
  }

  lemma GapRaisesCheckpoint(db: Db, key: string, requestedAfter: int, lostThrough: int, receivedAt: int)
    requires CursorsSound(db) && GapInsertable(db, key, requestedAfter, lostThrough)
    ensures var source := db.sources[key].pinned.value;
            var after := InsertGap(db, key, source, requestedAfter, lostThrough, receivedAt);
            && CursorsSound(after)
            && Checkpoint(db, source) == requestedAfter
            && forall id :: Checkpoint(after, id) == if id == source then lostThrough else Checkpoint(db, id)
  {
  }

  lemma RecordGapKeepsSound(db: Db, key: string, requestedAfter: int, lostThrough: int, receivedAt: int)
    requires Sound(db)
    ensures Sound(RecordGap(db, key, requestedAfter, lostThrough, receivedAt).db)
  {
    hide RecordGap, InsertGap, CursorsSound, WithinCheckpoint, TracesDistinct, OutboxSound, RowIdsSound;
    GapInsertsOnlyNext(db, key, requestedAfter, lostThrough, receivedAt);
    if GapInsertable(db, key, requestedAfter, lostThrough) {
      GapRaisesCheckpoint(db, key, requestedAfter, lostThrough, receivedAt);
      InsertGapKeepsRest(db, key, requestedAfter, lostThrough, receivedAt);
    }
  }

  lemma InsertGapKeepsRest(db: Db, key: string, requestedAfter: int, lostThrough: int, receivedAt: int)
    requires Sound(db) && GapInsertable(db, key, requestedAfter, lostThrough)
    ensures var after := InsertGap(db, key, db.sources[key].pinned.value, requestedAfter, lostThrough, receivedAt);
            WithinCheckpoint(after) && TracesDistinct(after) && OutboxSound(after) && RowIdsSound(after)
  {
    hide RaiseCheckpoint, WithinCheckpoint, CursorsSound;
    var after := InsertGap(db, key, db.sources[key].pinned.value, requestedAfter, lostThrough, receivedAt);
    GapKeepsWithin(db, key, requestedAfter, lostThrough, receivedAt);
    assert TracesDistinct(after);
    assert OutboxSound(after);
    assert Ascending(after.gaps, GapRowId);
  }

  lemma GapKeepsWithin(db: Db, key: string, requestedAfter: int, lostThrough: int, receivedAt: int)
    requires WithinCheckpoint(db) && CursorsSound(db) && GapInsertable(db, key, requestedAfter, lostThrough)
    ensures WithinCheckpoint(InsertGap(db, key, db.sources[key].pinned.value, requestedAfter, lostThrough, receivedAt))
  {
    GapRaisesCheckpoint(db, key, requestedAfter, lostThrough, receivedAt);
  }

  /** Every transaction keeps the database sound, whether it commits or fails. */
  lemma EveryOpKeepsSound(db: Db, op: Op)
    requires Sound(db)
    ensures Sound(Apply(db, op))
  {
    hide Sound, Adopt, IngestEvent, RecordGap, MaintainHistory, DispatchOutbox, RequeuePermissionSuppressed, ReleaseSource, RegisterSource;
    match op
    case Register(key, localLabel) => RegisterKeepsSound(db, key, localLabel);
    case Pin(key, id) =>
      if key in db.sources && !OwnedElsewhere(db, key, id) { AdoptKeepsSound(db, key, id); }
    case Replace(key, id) =>
      if key in db.sources && !OwnedElsewhere(db, key, id) { AdoptKeepsSound(db, key, id); }
    case Release(key) => ReleaseKeepsSound(db, key);
    case Ingest(key, sequence, event, bytes, receivedAt) =>
      IngestKeepsSound(db, key, sequence, event, bytes, receivedAt);
    case DeclareGap(key, requestedAfter, lostThrough, receivedAt) =>
      RecordGapKeepsSound(db, key, requestedAfter, lostThrough, receivedAt);
    case Maintain(historyNow, tombstoneNow) => MaintenanceIsSafe(db, historyNow, tombstoneNow);
    case DispatchRound(round) => DispatchKeepsSound(db, round);
    case Requeue(now) => RequeueKeepsSound(db, now);
  }
}
