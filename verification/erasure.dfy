/** Databases seen through a filter: without what a bridge strips, or without reception times. */
module Erasures {
  import opened Base
  import opened Events
  import opened Rows
  import opened Tables
  import opened Runs

  /** payload: ignore terminal-activation metadata and stored sizes; times: ignore when rows were written. */
  datatype Erasure = Erasure(payload: bool, times: bool)

  function Image<T, U>(s: seq<T>, f: T -> U): seq<U> {
    seq(|s|, i requires 0 <= i < |s| => f(s[i]))
  }

  lemma ImageAppend<T, U>(s: seq<T>, x: T, f: T -> U)
    ensures Image(s + [x], f) == Image(s, f) + [f(x)]
  {
  }

  function ShapeEvent(er: Erasure, event: Event): (r: Event)
    ensures r.id == event.id && r.sourceId == event.sourceId && r.occurredAt == event.occurredAt
  {
    if er.payload then RemoveTerminalActivationMetadata(event) else event
  }

  function EventShape(er: Erasure): EventRow -> EventRow {
    (r: EventRow) =>
      r.(event := ShapeEvent(er, r.event),
         bytes := if er.payload then 0 else r.bytes,
         receivedAt := if er.times then 0 else r.receivedAt,
         clockSkewed := if er.times then false else r.clockSkewed)
  }

  function GapShape(er: Erasure): GapRow -> GapRow {
    (r: GapRow) => r.(receivedAt := if er.times then 0 else r.receivedAt)
  }

  function TombstoneShape(er: Erasure): Tombstone -> Tombstone {
    (r: Tombstone) => r.(digest := ShapeEvent(er, r.digest), createdAt := if er.times then 0 else r.createdAt)
  }

  function OutboxShape(er: Erasure): OutboxRow -> OutboxRow {
    (r: OutboxRow) => r.(nextAttemptAt := if er.times then 0 else r.nextAttemptAt)
  }

  function Shape(er: Erasure, db: Db): Db {
    db.(events := Image(db.events, EventShape(er)),
        gaps := Image(db.gaps, GapShape(er)),
        tombstones := Image(db.tombstones, TombstoneShape(er)),
        outbox := Image(db.outbox, OutboxShape(er)))
  }

  // ---- What looking the same means, column by column ----

  ghost predicate AlikeEvents(er: Erasure, a: EventRow, b: EventRow) {
    && a.id == b.id && a.key == b.key && a.sourceId == b.sourceId && a.localLabel == b.localLabel && a.sequence == b.sequence
    && (if er.payload then SameButActivation(a.event, b.event) else a.event == b.event && a.bytes == b.bytes)
    && (er.times || (a.receivedAt == b.receivedAt && a.clockSkewed == b.clockSkewed))
  }

  ghost predicate AlikeGaps(er: Erasure, a: GapRow, b: GapRow) {
    a.(receivedAt := b.receivedAt) == b && (er.times || a.receivedAt == b.receivedAt)
  }

  ghost predicate AlikeTombstones(er: Erasure, a: Tombstone, b: Tombstone) {
    && a.id == b.id && a.sourceId == b.sourceId && a.sequence == b.sequence && a.eventId == b.eventId
    && (if er.payload then SameButActivation(a.digest, b.digest) else a.digest == b.digest)
    && (er.times || a.createdAt == b.createdAt)
  }

  ghost predicate AlikeOutbox(er: Erasure, a: OutboxRow, b: OutboxRow) {
    a.(nextAttemptAt := b.nextAttemptAt) == b && (er.times || a.nextAttemptAt == b.nextAttemptAt)
  }

  /** Row for row the same, but for the activation key and stored sizes, or but for times. */
  ghost predicate Alike(er: Erasure, a: Db, b: Db) {
    && a.sources == b.sources && a.checkpoints == b.checkpoints
    && |a.events| == |b.events| && (forall i :: 0 <= i < |a.events| ==> AlikeEvents(er, a.events[i], b.events[i]))
    && |a.gaps| == |b.gaps| && (forall i :: 0 <= i < |a.gaps| ==> AlikeGaps(er, a.gaps[i], b.gaps[i]))
    && |a.tombstones| == |b.tombstones|
    && (forall i :: 0 <= i < |a.tombstones| ==> AlikeTombstones(er, a.tombstones[i], b.tombstones[i]))
    && |a.outbox| == |b.outbox| && (forall i :: 0 <= i < |a.outbox| ==> AlikeOutbox(er, a.outbox[i], b.outbox[i]))
  }

  lemma ImagesEqualIff<T>(a: seq<T>, b: seq<T>, f: T -> T)
    ensures Image(a, f) == Image(b, f) <==> |a| == |b| && forall i :: 0 <= i < |a| ==> f(a[i]) == f(b[i])
  {
    if Image(a, f) == Image(b, f) {
      assert |Image(a, f)| == |a| && |Image(b, f)| == |b|;
      forall i | 0 <= i < |a| ensures f(a[i]) == f(b[i]) {
        assert Image(a, f)[i] == Image(b, f)[i];
      }
    }
  }

  lemma EventShapesIff(er: Erasure, a: EventRow, b: EventRow)
    ensures EventShape(er)(a) == EventShape(er)(b) <==> AlikeEvents(er, a, b)
  {
    hide RemoveTerminalActivationMetadata, SameButActivation;
    StrippedSameIff(a.event, b.event);
  }

  lemma TombstoneShapesIff(er: Erasure, a: Tombstone, b: Tombstone)
    ensures TombstoneShape(er)(a) == TombstoneShape(er)(b) <==> AlikeTombstones(er, a, b)
  {
    hide RemoveTerminalActivationMetadata, SameButActivation;
    StrippedSameIff(a.digest, b.digest);
  }

  /** Two databases look the same through the filter exactly when corresponding rows differ only in what it ignores. */
  lemma SameShapeIffAlike(er: Erasure, a: Db, b: Db)
    ensures Shape(er, a) == Shape(er, b) <==> Alike(er, a, b)
  {
    hide Image, EventShape, TombstoneShape, AlikeEvents, AlikeTombstones;
    ImagesEqualIff(a.events, b.events, EventShape(er));
    ImagesEqualIff(a.gaps, b.gaps, GapShape(er));
    ImagesEqualIff(a.tombstones, b.tombstones, TombstoneShape(er));
    ImagesEqualIff(a.outbox, b.outbox, OutboxShape(er));
    forall i | 0 <= i < |a.events| && i < |b.events|
      ensures EventShape(er)(a.events[i]) == EventShape(er)(b.events[i]) <==> AlikeEvents(er, a.events[i], b.events[i])
    {
      EventShapesIff(er, a.events[i], b.events[i]);
    }
    forall i | 0 <= i < |a.tombstones| && i < |b.tombstones|
      ensures TombstoneShape(er)(a.tombstones[i]) == TombstoneShape(er)(b.tombstones[i])
         <==> AlikeTombstones(er, a.tombstones[i], b.tombstones[i])
    {
      TombstoneShapesIff(er, a.tombstones[i], b.tombstones[i]);
    }
  }

  ghost predicate EventTraced(rows: seq<EventRow>, id: Uuid, sequence: int, eventId: Uuid) {
    exists r :: r in rows && EventMatches(r, id, sequence, eventId)
  }

  ghost predicate TombstoneTraced(rows: seq<Tombstone>, id: Uuid, sequence: int, eventId: Uuid) {
    exists t :: t in rows && TombstoneMatches(t, id, sequence, eventId)
  }

  lemma EventTracedThroughShape(er: Erasure, rows: seq<EventRow>, id: Uuid, sequence: int, eventId: Uuid)
    ensures EventTraced(Image(rows, EventShape(er)), id, sequence, eventId) <==> EventTraced(rows, id, sequence, eventId)
  {
    var shaped := Image(rows, EventShape(er));
    if r :| r in rows && EventMatches(r, id, sequence, eventId) {
      var i :| 0 <= i < |rows| && rows[i] == r;
      assert shaped[i] == EventShape(er)(r) && shaped[i] in shaped;
    }
    if r :| r in shaped && EventMatches(r, id, sequence, eventId) {
      var i :| 0 <= i < |shaped| && shaped[i] == r;
      assert EventMatches(rows[i], id, sequence, eventId) && rows[i] in rows;
    }
  }

  lemma TombstoneTracedThroughShape(er: Erasure, rows: seq<Tombstone>, id: Uuid, sequence: int, eventId: Uuid)
    ensures TombstoneTraced(Image(rows, TombstoneShape(er)), id, sequence, eventId)
       <==> TombstoneTraced(rows, id, sequence, eventId)
  {
    var shaped := Image(rows, TombstoneShape(er));
    if t :| t in rows && TombstoneMatches(t, id, sequence, eventId) {
      var i :| 0 <= i < |rows| && rows[i] == t;
      assert shaped[i] == TombstoneShape(er)(t) && shaped[i] in shaped;
    }
    if t :| t in shaped && TombstoneMatches(t, id, sequence, eventId) {
      var i :| 0 <= i < |shaped| && shaped[i] == t;
      assert TombstoneMatches(rows[i], id, sequence, eventId) && rows[i] in rows;
    }
  }

  lemma TracedThroughShape(er: Erasure, db: Db, id: Uuid, sequence: int, eventId: Uuid)
    ensures Traced(Shape(er, db), id, sequence, eventId) <==> Traced(db, id, sequence, eventId)
  {
    hide EventMatches, TombstoneMatches, EventShape, TombstoneShape;
    EventTracedThroughShape(er, db.events, id, sequence, eventId);
    TombstoneTracedThroughShape(er, db.tombstones, id, sequence, eventId);
    assert Traced(db, id, sequence, eventId)
      <==> EventTraced(db.events, id, sequence, eventId) || TombstoneTraced(db.tombstones, id, sequence, eventId);
  }

  lemma GapRecordedThroughShape(er: Erasure, db: Db, id: Uuid, lostFrom: int, lostThrough: int)
    ensures GapRecorded(Shape(er, db), id, lostFrom, lostThrough) <==> GapRecorded(db, id, lostFrom, lostThrough)
  {
    var shaped := Shape(er, db);
    if g :| g in db.gaps && g.sourceId == id && g.lostFrom == lostFrom && g.lostThrough == lostThrough {
      var i :| 0 <= i < |db.gaps| && db.gaps[i] == g;
      assert shaped.gaps[i] == GapShape(er)(g) && shaped.gaps[i] in shaped.gaps;
    }
    if g :| g in shaped.gaps && g.sourceId == id && g.lostFrom == lostFrom && g.lostThrough == lostThrough {
      var i :| 0 <= i < |shaped.gaps| && shaped.gaps[i] == g;
      assert db.gaps[i] in db.gaps;
    }
  }

  lemma NextIdsThroughShape(er: Erasure, db: Db)
    ensures NextId(Shape(er, db).events, EventRowId) == NextId(db.events, EventRowId)
    ensures NextId(Shape(er, db).gaps, GapRowId) == NextId(db.gaps, GapRowId)
    ensures NextId(Shape(er, db).outbox, OutboxId) == NextId(db.outbox, OutboxId)
  {
  }

  lemma InsertEventThroughShape(er: Erasure, db: Db, key: string, sequence: int, event: Event, bytes: nat, receivedAt: int)
    requires key in db.sources
    ensures Shape(er, InsertEvent(db, key, sequence, event, bytes, receivedAt))
         == Shape(er, InsertEvent(Shape(er, db), key, sequence, ShapeEvent(er, event),
                                  if er.payload then 0 else bytes, if er.times then 0 else receivedAt))
  {
    var shaped := Shape(er, db);
    NextIdsThroughShape(er, db);
    ShapeTwice(er, event);
    ShapeOfShape(er, db);
    var after := InsertEvent(db, key, sequence, event, bytes, receivedAt);
    var other := InsertEvent(shaped, key, sequence, ShapeEvent(er, event), if er.payload then 0 else bytes, if er.times then 0 else receivedAt);
    ImageAppend(db.events, after.events[|db.events|], EventShape(er));
    ImageAppend(shaped.events, other.events[|shaped.events|], EventShape(er));
    ImageAppend(db.outbox, after.outbox[|db.outbox|], OutboxShape(er));
    ImageAppend(shaped.outbox, other.outbox[|shaped.outbox|], OutboxShape(er));
  }

  lemma ShapeTwice(er: Erasure, event: Event)
    ensures ShapeEvent(er, ShapeEvent(er, event)) == ShapeEvent(er, event)
  {
    RemovalIsIdempotent(event);
  }

  lemma ShapeOfShape(er: Erasure, db: Db)
    ensures Shape(er, Shape(er, db)) == Shape(er, db)
  {
    var once, twice := Shape(er, db), Shape(er, Shape(er, db));
    forall i | 0 <= i < |db.events| ensures twice.events[i] == once.events[i] {
      ShapeTwice(er, db.events[i].event);
    }
    forall i | 0 <= i < |db.tombstones| ensures twice.tombstones[i] == once.tombstones[i] {
      ShapeTwice(er, db.tombstones[i].digest);
    }
    assert twice.events == once.events && twice.tombstones == once.tombstones;
    assert twice.gaps == once.gaps && twice.outbox == once.outbox;
  }

  lemma InsertGapThroughShape(er: Erasure, db: Db, key: string, id: Uuid, requestedAfter: int, lostThrough: int, receivedAt: int)
    requires key in db.sources
    ensures Shape(er, InsertGap(db, key, id, requestedAfter, lostThrough, receivedAt))
         == Shape(er, InsertGap(Shape(er, db), key, id, requestedAfter, lostThrough, if er.times then 0 else receivedAt))
  {
    var shaped := Shape(er, db);
    NextIdsThroughShape(er, db);
    ShapeOfShape(er, db);
    var after := InsertGap(db, key, id, requestedAfter, lostThrough, receivedAt);
    var other := InsertGap(shaped, key, id, requestedAfter, lostThrough, if er.times then 0 else receivedAt);
    ImageAppend(db.gaps, after.gaps[|db.gaps|], GapShape(er));
    ImageAppend(shaped.gaps, other.gaps[|shaped.gaps|], GapShape(er));
  }

  /** Beyond the cursor nothing can be a duplicate, so an ingest depends on traces and the cursor alone. */
  lemma IngestBeyondCursor(db: Db, key: string, sequence: int, event: Event, bytes: nat, receivedAt: int)
    requires Sound(db) && key in db.sources && db.sources[key].cursor < sequence && 0 < sequence
    requires db.sources[key].pinned == Some(event.sourceId) && db.sources[key].cursor < I64_MAX
    ensures IngestEvent(db, key, sequence, event, bytes, receivedAt)
         == if Traced(db, event.sourceId, sequence, event.id) then
              Transaction(db, Err(ConflictingEvent(event.sourceId, sequence, event.id)))
            else if sequence != db.sources[key].cursor + 1 then
              Transaction(db, Err(UnexpectedSequence(db.sources[key].cursor + 1, sequence)))
            else Transaction(InsertEvent(db, key, sequence, event, bytes, receivedAt),
                             Ok(Inserted(NextId(db.events, EventRowId), NextId(db.outbox, OutboxId))))
  {
    hide Sound, Traced, InsertEvent, MatchingEvents;
    MatchingEmptyIffUntraced(db, event.sourceId, sequence, event.id);
    if IngestEvent(db, key, sequence, event, bytes, receivedAt).result == Ok(Duplicate) {
      DuplicateIsBehindCursor(db, key, sequence, event, bytes, receivedAt);
      assert false;
    }
  }

  /** Two deliveries that look the same do the same to two databases that look the same. */
  lemma IngestAgrees(er: Erasure, a: Db, b: Db, key: string, sequence: int, e: Event, f: Event, m: nat, n: nat, s: int, t: int)
    requires Shape(er, a) == Shape(er, b) && Sound(a) && Sound(b) && key in a.sources
    requires a.sources[key].cursor < sequence && 0 < sequence && a.sources[key].cursor < I64_MAX
    requires a.sources[key].pinned == Some(e.sourceId)
    requires ShapeEvent(er, e) == ShapeEvent(er, f) && (er.payload || m == n) && (er.times || s == t)
    ensures var x, y := IngestEvent(a, key, sequence, e, m, s), IngestEvent(b, key, sequence, f, n, t);
            x.result == y.result && Shape(er, x.db) == Shape(er, y.db)
  {
    hide Sound, IngestEvent, Traced, InsertEvent, ShapeEvent;
    assert a.sources == b.sources;
    TracedThroughShape(er, a, e.sourceId, sequence, e.id);
    TracedThroughShape(er, b, e.sourceId, sequence, e.id);
    NextIdsThroughShape(er, a);
    NextIdsThroughShape(er, b);
    IngestBeyondCursor(a, key, sequence, e, m, s);
    IngestBeyondCursor(b, key, sequence, f, n, t);
    InsertEventThroughShape(er, a, key, sequence, e, m, s);
    InsertEventThroughShape(er, b, key, sequence, f, n, t);
  }

  lemma RecordGapAgrees(er: Erasure, a: Db, b: Db, key: string, requestedAfter: int, lostThrough: int, s: int, t: int)
    requires Shape(er, a) == Shape(er, b) && key in a.sources && a.sources[key].pinned.Some? && (er.times || s == t)
    ensures var x, y := RecordGap(a, key, requestedAfter, lostThrough, s), RecordGap(b, key, requestedAfter, lostThrough, t);
            x.result == y.result && Shape(er, x.db) == Shape(er, y.db)
  {
    hide InsertGap, GapRecorded;
    assert a.sources == b.sources;
    var id := a.sources[key].pinned.value;
    GapRecordedThroughShape(er, a, id, requestedAfter + 1, lostThrough);
    GapRecordedThroughShape(er, b, id, requestedAfter + 1, lostThrough);
    NextIdsThroughShape(er, a);
    NextIdsThroughShape(er, b);
    InsertGapThroughShape(er, a, key, id, requestedAfter, lostThrough, s);
    InsertGapThroughShape(er, b, key, id, requestedAfter, lostThrough, t);
  }
}
