/** The desktop database as a value, and what each source transaction does to it. */
module Tables {
  import opened Base
  import opened Events
  import opened Rows

  const MAX_LOCAL_TEXT := 200

  datatype Source = Source(localLabel: string, pinned: Option<Uuid>, cursor: int)

  datatype EventRow = EventRow(
    id: int,
    key: string,
    sourceId: Uuid,
    localLabel: string,
    sequence: int,
    event: Event,
    bytes: nat,
    receivedAt: int,
    clockSkewed: bool)

  datatype GapRow = GapRow(
    id: int, key: string, sourceId: Uuid, localLabel: string, lostFrom: int, lostThrough: int, receivedAt: int)

  /** digest stands for the SHA-256 of the payload, taken to be injective. */
  datatype Tombstone = Tombstone(
    id: int, sourceId: Uuid, sequence: int, eventId: Uuid, digest: Event, createdAt: int)

  datatype OutboxState = Pending | Delivered | Suppressed | FailedRetryable | FailedTerminal

  /** Why a row left the pending states, or why it is being retried. */
  datatype Reason = PermissionDenied | RetryLimitReached | NativeRetryable | NativeTerminal | ByPolicy(code: string)

  datatype OutboxRow = OutboxRow(
    id: int,
    eventRow: int,
    identifier: (Uuid, Uuid),
    state: OutboxState,
    reason: Option<Reason>,
    attempts: int,
    nextAttemptAt: int)

  datatype Db = Db(
    sources: map<string, Source>,
    events: seq<EventRow>,
    gaps: seq<GapRow>,
    tombstones: seq<Tombstone>,
    checkpoints: map<Uuid, int>,
    outbox: seq<OutboxRow>)

  const EMPTY_DATABASE := Db(map[], [], [], [], map[], [])

  datatype DesktopError =
    | InvalidLocalText(field: string)
    | SourceNotRegistered(key: string)
    | SourceNotPinned(key: string)
    | SourceIdentityChanged(key: string, wanted: Uuid, got: Uuid)
    | DuplicateSourceRegistration(sourceId: Uuid)
    | InvalidSequence(sequence: int)
    | UnexpectedSequence(wantedSequence: int, gotSequence: int)
    | CursorExhausted
    | ConflictingEvent(sourceId: Uuid, sequence: int, eventId: Uuid)
    | InvalidGap(requestedAfter: int, lostThrough: int)
    | UnexpectedGapCursor(wantedCursor: int, gotCursor: int)
    | UniqueConstraint
    | OutboxNotPending(id: int)

  datatype Registration = Created(created: Source) | Existing(existing: Source)
  datatype PinResult = NewlyPinned | AlreadyPinned
  datatype IngestResult = Inserted(eventRow: int, outboxId: int) | Duplicate
  datatype GapResult = Recorded(gapRow: int) | DuplicateGap

  /** A committed or rolled-back transaction: on an error the database is the one it started from. */
  datatype Transaction<T> = Transaction(db: Db, result: Result<T, DesktopError>)

  function EventRowId(row: EventRow): int { row.id }
  function GapRowId(row: GapRow): int { row.id }
  function TombstoneId(row: Tombstone): int { row.id }
  function OutboxId(row: OutboxRow): int { row.id }

  predicate ValidLocalText(text: string) {
    1 <= |text| <= MAX_LOCAL_TEXT
    && forall c :: c in text ==> !(c as int < 0x20 || 0x7F <= c as int < 0xA0)
  }

  function RegisterSource(db: Db, key: string, localLabel: string): Transaction<Registration> {
    if !ValidLocalText(key) then Transaction(db, Err(InvalidLocalText("source key")))
    else if !ValidLocalText(localLabel) then Transaction(db, Err(InvalidLocalText("source label")))
    else if key in db.sources then
      var source := db.sources[key].(localLabel := localLabel);
      Transaction(db.(sources := db.sources[key := source]), Ok(Existing(source)))
    else
      var source := Source(localLabel, None, 0);
      Transaction(db.(sources := db.sources[key := source]), Ok(Created(source)))
  }

  /** The largest f over a table, or 0 for an empty one. */
  function Highest<T>(rows: seq<T>, f: T -> int): int {
    if rows == [] then 0 else Max(Highest(rows[..|rows| - 1], f), f(rows[|rows| - 1]))
  }

  function EventReach(id: Uuid): EventRow -> int {
    (r: EventRow) => if r.sourceId == id then r.sequence else 0
  }

  function TombstoneReach(id: Uuid): Tombstone -> int {
    (r: Tombstone) => if r.sourceId == id then r.sequence else 0
  }

  function GapReach(id: Uuid): GapRow -> int {
    (r: GapRow) => if r.sourceId == id then r.lostThrough else 0
  }

  function Checkpoint(db: Db, id: Uuid): int {
    if id in db.checkpoints then db.checkpoints[id] else 0
  }

  function KnownHighWatermark(db: Db, id: Uuid): int {
    Max(Max(Highest(db.events, EventReach(id)), Highest(db.tombstones, TombstoneReach(id))),
        Max(Highest(db.gaps, GapReach(id)), Checkpoint(db, id)))
  }

  predicate OwnedElsewhere(db: Db, key: string, id: Uuid) {
    exists other :: other in db.sources && other != key && db.sources[other].pinned == Some(id)
  }

  function Adopt(db: Db, key: string, id: Uuid): Db
    requires key in db.sources
  {
    db.(sources := db.sources[key := db.sources[key].(pinned := Some(id), cursor := KnownHighWatermark(db, id))])
  }

  function PinSource(db: Db, key: string, id: Uuid): Transaction<PinResult> {
    if key !in db.sources then Transaction(db, Err(SourceNotRegistered(key)))
    else if db.sources[key].pinned == Some(id) then Transaction(db, Ok(AlreadyPinned))
    else if db.sources[key].pinned.Some? then
      Transaction(db, Err(SourceIdentityChanged(key, db.sources[key].pinned.value, id)))
    else if OwnedElsewhere(db, key, id) then Transaction(db, Err(DuplicateSourceRegistration(id)))
    else Transaction(Adopt(db, key, id), Ok(NewlyPinned))
  }

  function ReplaceSource(db: Db, key: string, id: Uuid): Transaction<()> {
    if key !in db.sources then Transaction(db, Err(SourceNotRegistered(key)))
    else if OwnedElsewhere(db, key, id) then Transaction(db, Err(DuplicateSourceRegistration(id)))
    else Transaction(Adopt(db, key, id), Ok(()))
  }

  function ReleaseSource(db: Db, key: string): Transaction<()> {
    if key !in db.sources then Transaction(db, Err(SourceNotRegistered(key)))
    else
      Transaction(db.(sources := db.sources[key := db.sources[key].(pinned := None, cursor := 0)]), Ok(()))
  }

  // ---- Ingest ----

  predicate EventMatches(row: EventRow, id: Uuid, sequence: int, eventId: Uuid) {
    row.sourceId == id && (row.sequence == sequence || row.event.id == eventId)
  }

  predicate TombstoneMatches(row: Tombstone, id: Uuid, sequence: int, eventId: Uuid) {
    row.sourceId == id && (row.sequence == sequence || row.eventId == eventId)
  }

  /** A durable trace of a delivery: its sequence, its event identity and its payload. */
  datatype MatchingEvent = MatchingEvent(sequence: int, eventId: Uuid, digest: Event)

  function MatchingRows(rows: seq<EventRow>, id: Uuid, sequence: int, eventId: Uuid): seq<MatchingEvent> {
    if rows == [] then []
    else
      var row := rows[|rows| - 1];
      MatchingRows(rows[..|rows| - 1], id, sequence, eventId)
      + if EventMatches(row, id, sequence, eventId) then [MatchingEvent(row.sequence, row.event.id, row.event)] else []
  }

  function MatchingTombstones(rows: seq<Tombstone>, id: Uuid, sequence: int, eventId: Uuid): seq<MatchingEvent> {
    if rows == [] then []
    else
      var row := rows[|rows| - 1];
      MatchingTombstones(rows[..|rows| - 1], id, sequence, eventId)
      + if TombstoneMatches(row, id, sequence, eventId) then [MatchingEvent(row.sequence, row.eventId, row.digest)] else []
  }

  function MatchingEvents(db: Db, id: Uuid, sequence: int, eventId: Uuid): seq<MatchingEvent> {
    MatchingRows(db.events, id, sequence, eventId) + MatchingTombstones(db.tombstones, id, sequence, eventId)
  }

  function RaiseCheckpoint(checkpoints: map<Uuid, int>, id: Uuid, sequence: int): map<Uuid, int> {
    checkpoints[id := if id in checkpoints then Max(checkpoints[id], sequence) else sequence]
  }

  /** Inserts the event row and its pending outbox row, and moves cursor and checkpoint, in one commit. */
  function InsertEvent(db: Db, key: string, sequence: int, event: Event, bytes: nat, receivedAt: int): Db
    requires key in db.sources
  {
    var source := db.sources[key];
    var row := EventRow(NextId(db.events, EventRowId), key, event.sourceId, source.localLabel, sequence, event, bytes,
                        receivedAt, IsClockSkewed(event.occurredAt, receivedAt));
    var outbox := OutboxRow(NextId(db.outbox, OutboxId), row.id, (event.sourceId, event.id), Pending, None, 0, receivedAt);
    db.(sources := db.sources[key := source.(cursor := sequence)],
        events := db.events + [row],
        checkpoints := RaiseCheckpoint(db.checkpoints, event.sourceId, sequence),
        outbox := db.outbox + [outbox])
  }

  function IngestEvent(db: Db, key: string, sequence: int, event: Event, bytes: nat, receivedAt: int)
    : Transaction<IngestResult>
  {
    if sequence <= 0 then Transaction(db, Err(InvalidSequence(sequence)))
    else if key !in db.sources then Transaction(db, Err(SourceNotRegistered(key)))
    else if db.sources[key].pinned.None? then Transaction(db, Err(SourceNotPinned(key)))
    else
      var source := db.sources[key];
      var id := source.pinned.value;
      if id != event.sourceId then Transaction(db, Err(SourceIdentityChanged(key, id, event.sourceId)))
      else
        var matching := MatchingEvents(db, id, sequence, event.id);
        if matching == [MatchingEvent(sequence, event.id, event)] then Transaction(db, Ok(Duplicate))
        else if matching != [] then Transaction(db, Err(ConflictingEvent(id, sequence, event.id)))
        else if source.cursor == I64_MAX then Transaction(db, Err(CursorExhausted))
        else if sequence != source.cursor + 1 then
          Transaction(db, Err(UnexpectedSequence(source.cursor + 1, sequence)))
        else
          Transaction(InsertEvent(db, key, sequence, event, bytes, receivedAt),
                      Ok(Inserted(NextId(db.events, EventRowId), NextId(db.outbox, OutboxId))))
  }

  // ---- Gaps ----

  predicate GapRecorded(db: Db, id: Uuid, lostFrom: int, lostThrough: int) {
    exists g :: g in db.gaps && g.sourceId == id && g.lostFrom == lostFrom && g.lostThrough == lostThrough
  }

  function InsertGap(db: Db, key: string, id: Uuid, requestedAfter: int, lostThrough: int, receivedAt: int): Db
    requires key in db.sources
  {
    var source := db.sources[key];
    db.(sources := db.sources[key := source.(cursor := lostThrough)],
        gaps := db.gaps + [GapRow(NextId(db.gaps, GapRowId), key, id, source.localLabel,
                                  requestedAfter + 1, lostThrough, receivedAt)],
        checkpoints := RaiseCheckpoint(db.checkpoints, id, lostThrough))
  }

  function RecordGap(db: Db, key: string, requestedAfter: int, lostThrough: int, receivedAt: int)
    : Transaction<GapResult>
  {
    if requestedAfter < 0 || lostThrough <= requestedAfter then
      Transaction(db, Err(InvalidGap(requestedAfter, lostThrough)))
    else if key !in db.sources then Transaction(db, Err(SourceNotRegistered(key)))
    else if db.sources[key].pinned.None? then Transaction(db, Err(SourceNotPinned(key)))
    else
      var source := db.sources[key];
      var id := source.pinned.value;
      var recorded := GapRecorded(db, id, requestedAfter + 1, lostThrough);
      if recorded && source.cursor >= lostThrough then Transaction(db, Ok(DuplicateGap))
      else if source.cursor != requestedAfter then
        Transaction(db, Err(UnexpectedGapCursor(source.cursor, requestedAfter)))
      else if recorded then Transaction(db, Err(UniqueConstraint))
      else
        Transaction(InsertGap(db, key, id, requestedAfter, lostThrough, receivedAt),
                    Ok(Recorded(NextId(db.gaps, GapRowId))))
  }

  // ---- What holds of every database the program builds ----

  /** Durable traces never lie beyond the checkpoint of their source. */
  ghost predicate WithinCheckpoint(db: Db) {
    && (forall r :: r in db.events ==>
          r.event.sourceId == r.sourceId && 0 < r.sequence <= Checkpoint(db, r.sourceId))
    && (forall t :: t in db.tombstones ==> 0 < t.sequence <= Checkpoint(db, t.sourceId))
    && (forall g :: g in db.gaps ==> 0 < g.lostFrom <= g.lostThrough <= Checkpoint(db, g.sourceId))
    && (forall id :: id in db.checkpoints ==> 0 < db.checkpoints[id])
  }

  /** A pinned cursor stands at its source's checkpoint, an unpinned one at 0, and no identity has two owners. */
  ghost predicate CursorsSound(db: Db) {
    && (forall k :: k in db.sources ==>
          db.sources[k].cursor == (if db.sources[k].pinned.Some? then Checkpoint(db, db.sources[k].pinned.value) else 0))
    && (forall j, k | j in db.sources && k in db.sources ::
          db.sources[j].pinned.Some? && db.sources[j].pinned == db.sources[k].pinned ==> j == k)
  }

  /** Two traces of one source never share a sequence or an event identity, across history and tombstones. */
  ghost predicate TracesDistinct(db: Db) {
    && (forall r, t :: r in db.events && t in db.tombstones ==>
          !TombstoneMatches(t, r.sourceId, r.sequence, r.event.id))
    && (forall r, q :: r in db.events && q in db.events && r != q ==>
          !EventMatches(q, r.sourceId, r.sequence, r.event.id))
    && (forall s, t :: s in db.tombstones && t in db.tombstones && s != t ==>
          !TombstoneMatches(t, s.sourceId, s.sequence, s.eventId))
  }

  ghost predicate RowIdsSound(db: Db) {
    && Ascending(db.events, EventRowId)
    && Ascending(db.gaps, GapRowId)
    && Ascending(db.tombstones, TombstoneId)
    && Ascending(db.outbox, OutboxId)
  }

  ghost predicate HasEvent(events: seq<EventRow>, id: int) {
    exists r :: r in events && r.id == id
  }

  ghost predicate HasOutbox(outbox: seq<OutboxRow>, eventRow: int) {
    exists o :: o in outbox && o.eventRow == eventRow
  }

  /** Every history event has exactly one outbox row, and every outbox row has its event. */
  ghost predicate OutboxSound(db: Db) {
    && (forall id :: HasEvent(db.events, id) <==> HasOutbox(db.outbox, id))
    && (forall o, p :: o in db.outbox && p in db.outbox && o.eventRow == p.eventRow ==> o == p)
  }

  ghost predicate Sound(db: Db) {
    WithinCheckpoint(db) && CursorsSound(db) && TracesDistinct(db) && RowIdsSound(db) && OutboxSound(db)
  }

  lemma EmptyIsSound()
    ensures Sound(EMPTY_DATABASE)
  {
  }

  lemma {:induction false} HighestIs<T(!new)>(rows: seq<T>, f: T -> int)
    ensures 0 <= Highest(rows, f) && forall r :: r in rows ==> f(r) <= Highest(rows, f)
    ensures Highest(rows, f) == 0 || exists r :: r in rows && f(r) == Highest(rows, f)
  {
    if rows != [] {
      var m := |rows| - 1;
      HighestIs(rows[..m], f);
      assert rows[m] in rows && forall r :: r in rows[..m] ==> r in rows;
      if r :| r in rows[..m] && f(r) == Highest(rows[..m], f) { assert r in rows; }
    }
  }

  /** A sequence of this source that some table speaks of. */
  ghost predicate SpokenOf(db: Db, id: Uuid, sequence: int) {
    || (exists r :: r in db.events && r.sourceId == id && r.sequence == sequence)
    || (exists t :: t in db.tombstones && t.sourceId == id && t.sequence == sequence)
    || (exists g :: g in db.gaps && g.sourceId == id && g.lostThrough == sequence)
    || (id in db.checkpoints && db.checkpoints[id] == sequence)
  }

  /** In any database, sound or not, the known watermark is the highest sequence any table speaks of, or 0. */
  lemma WatermarkIsHighest(db: Db, id: Uuid)
    ensures forall sequence :: SpokenOf(db, id, sequence) ==> sequence <= KnownHighWatermark(db, id)
    ensures KnownHighWatermark(db, id) == 0 || (KnownHighWatermark(db, id) > 0 && SpokenOf(db, id, KnownHighWatermark(db, id)))
  {
    hide Highest;
    HighestIs(db.events, EventReach(id));
    HighestIs(db.tombstones, TombstoneReach(id));
    HighestIs(db.gaps, GapReach(id));
    forall sequence | SpokenOf(db, id, sequence) ensures sequence <= KnownHighWatermark(db, id) {
      if r :| r in db.events && r.sourceId == id && r.sequence == sequence { assert EventReach(id)(r) == sequence; }
      if t :| t in db.tombstones && t.sourceId == id && t.sequence == sequence { assert TombstoneReach(id)(t) == sequence; }
      if g :| g in db.gaps && g.sourceId == id && g.lostThrough == sequence { assert GapReach(id)(g) == sequence; }
    }
  }

  lemma {:induction false} HighestBounded<T(!new)>(rows: seq<T>, f: T -> int, bound: int)
    requires 0 <= bound && forall r :: r in rows ==> f(r) <= bound
    ensures 0 <= Highest(rows, f) <= bound
  {
    if rows != [] {
      HighestBounded(rows[..|rows| - 1], f, bound);
    }
  }

  /** The watermark a re-pinned identity resumes from is its checkpoint. */
  lemma WatermarkIsCheckpoint(db: Db, id: Uuid)
    requires WithinCheckpoint(db)
    ensures KnownHighWatermark(db, id) == Checkpoint(db, id)
  {
    HighestBounded(db.events, EventReach(id), Checkpoint(db, id));
    HighestBounded(db.tombstones, TombstoneReach(id), Checkpoint(db, id));
    HighestBounded(db.gaps, GapReach(id), Checkpoint(db, id));
  }

  /** matching_events reports exactly the durable traces that share the sequence or the event identity. */
  lemma {:induction false} MatchingRowsAreThose(rows: seq<EventRow>, id: Uuid, sequence: int, eventId: Uuid)
    ensures forall m :: m in MatchingRows(rows, id, sequence, eventId) <==>
              exists r :: r in rows && EventMatches(r, id, sequence, eventId)
                && m == MatchingEvent(r.sequence, r.event.id, r.event)
  {
    if rows != [] {
      MatchingRowsAreThose(rows[..|rows| - 1], id, sequence, eventId);
      var last := rows[|rows| - 1];
      forall r | r in rows ensures r == last || r in rows[..|rows| - 1] {
      }
    }
  }

  lemma {:induction false} MatchingTombstonesAreThose(rows: seq<Tombstone>, id: Uuid, sequence: int, eventId: Uuid)
    ensures forall m :: m in MatchingTombstones(rows, id, sequence, eventId) <==>
              exists t :: t in rows && TombstoneMatches(t, id, sequence, eventId)
                && m == MatchingEvent(t.sequence, t.eventId, t.digest)
  {
    if rows != [] {
      MatchingTombstonesAreThose(rows[..|rows| - 1], id, sequence, eventId);
      var last := rows[|rows| - 1];
      forall t | t in rows ensures t == last || t in rows[..|rows| - 1] {
      }
    }
  }

  /** Some durable trace of this source carries the sequence or the event identity. */
  ghost predicate Traced(db: Db, id: Uuid, sequence: int, eventId: Uuid) {
    (exists r :: r in db.events && EventMatches(r, id, sequence, eventId))
    || (exists t :: t in db.tombstones && TombstoneMatches(t, id, sequence, eventId))
  }

  lemma MatchingEmptyIffUntraced(db: Db, id: Uuid, sequence: int, eventId: Uuid)
    ensures MatchingEvents(db, id, sequence, eventId) == [] <==> !Traced(db, id, sequence, eventId)
  {
    MatchingRowsAreThose(db.events, id, sequence, eventId);
    MatchingTombstonesAreThose(db.tombstones, id, sequence, eventId);
    var matching := MatchingEvents(db, id, sequence, eventId);
    if matching != [] {
      assert matching[0] in matching;
    }
    if r :| r in db.events && EventMatches(r, id, sequence, eventId) {
      assert MatchingEvent(r.sequence, r.event.id, r.event) in matching;
    } else if t :| t in db.tombstones && TombstoneMatches(t, id, sequence, eventId) {
      assert MatchingEvent(t.sequence, t.eventId, t.digest) in matching;
    }
  }

  /** An accepted duplicate was delivered before: its sequence lies at or below the checkpoint. */
  lemma DuplicateIsBehindCursor(db: Db, key: string, sequence: int, event: Event, bytes: nat, receivedAt: int)
    requires Sound(db) && IngestEvent(db, key, sequence, event, bytes, receivedAt).result == Ok(Duplicate)
    ensures key in db.sources && 0 < sequence <= db.sources[key].cursor
  {
    var id := event.sourceId;
    MatchingRowsAreThose(db.events, id, sequence, event.id);
    MatchingTombstonesAreThose(db.tombstones, id, sequence, event.id);
    var m := MatchingEvent(sequence, event.id, event);
    assert m in MatchingEvents(db, id, sequence, event.id);
    assert m in MatchingRows(db.events, id, sequence, event.id) || m in MatchingTombstones(db.tombstones, id, sequence, event.id);
  }
}
