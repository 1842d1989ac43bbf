/** The two ways into the desktop database agree, and interrupted sessions add up to one uninterrupted one. */
module Agreement {
  import opened Base
  import opened Events
  import opened Rows
  import opened Protocol
  import opened Spools
  import opened Bridge
  import opened Tables
  import opened Runs
  import opened Erasures
  import opened Remote
  import opened Pipeline

  // ---- What a quiet spool still owes a consumer ----

  function Pending(s: SpoolState, cursor: int): seq<Frame> {
    FrontGap(s, cursor).0 + Remaining(s, FrontGap(s, cursor).1)
  }

  lemma QuietStreamIsHelloThenPending(s: SpoolState, after: int)
    ensures QuietStream(s, after) == [HelloOf(s)] + Pending(s, after)
  {
    hide FrontGap, EventFrames, RowsAfter;
  }

  /** Where an event or a gap leaves the cursor. */
  function NextCursor(frame: Frame): int {
    match frame
    case EventFrame(sequence, _) => sequence
    case Gap(_, _, lostThrough) => lostThrough
    case _ => 0
  }

  /** Skipping below the next row leaves the same rows to come. */
  lemma SameRowsBelow(rows: seq<SpoolRow>, cursor: int, next: int)
    requires Ascending(rows, Sequence) && cursor <= next
    requires RowsAfter(rows, cursor) != [] && next < RowsAfter(rows, cursor)[0].sequence
    ensures RowsAfter(rows, next) == RowsAfter(rows, cursor)
  {
    hide RowsAfter;
    RowsAfterIsSuffix(rows, cursor);
    RowsAfterIsSuffix(rows, next);
    var rest, skipped := RowsAfter(rows, cursor), RowsAfter(rows, next);
    var k, j := |rows| - |rest|, |rows| - |skipped|;
    forall i | k <= i < |rows| ensures rows[i].sequence > next {
      if k < i { assert Sequence(rows[k]) < Sequence(rows[i]); }
    }
    assert j == k;
  }

  /** What the head of the pending frames must be for the cursor to stand at k. */
  ghost predicate Heads(s: SpoolState, k: int, f: Frame) {
    && (f.Gap? || f.EventFrame?) && ValidFrame(f)
    && k < NextCursor(f) <= s.highWatermark <= I64_MAX
    && FrontGap(s, NextCursor(f)).0 == []
    && (f.EventFrame? ==> FrontGap(s, k).0 == [] && f.sequence == k + 1 && f.event.sourceId == s.sourceId)
    && (f.Gap? ==> f.requestedAfter == k)
    && (FrontGap(s, k).0 != [] ==> f == FrontGap(s, k).0[0])
  }

  lemma FrontGapHeads(s: SpoolState, k: int)
    requires ValidSpool(s) && 0 <= k && FrontGap(s, k).0 != []
    ensures Heads(s, k, Pending(s, k)[0])
    ensures Pending(s, NextCursor(Pending(s, k)[0])) == Pending(s, k)[1..]
  {
    hide ValidSpool, FrontGap, Honest, Remaining, ValidFrame;
    FrontGapIsHonest(s, k);
    FrontGapClosesFront(s, k);
    NoFrontGapMeans(s, FrontGap(s, k).1);
    FrontGapWithin(s, k);
    assert Pending(s, k)[1..] == Remaining(s, FrontGap(s, k).1);
    assert [] + Remaining(s, FrontGap(s, k).1) == Remaining(s, FrontGap(s, k).1);
  }

  lemma FrontGapClosesFront(s: SpoolState, k: int)
    ensures FrontGap(s, k).0 != [] ==> FrontGap(s, FrontGap(s, k).1).0 == [] && k < FrontGap(s, k).1
  {
  }

  lemma FrontGapWithin(s: SpoolState, k: int)
    requires ValidSpool(s) && FrontGap(s, k).0 != []
    ensures FrontGap(s, k).1 <= s.highWatermark <= I64_MAX
  {
    SnapshotOfSound(s);
  }

  lemma NoFrontGapPending(s: SpoolState, cursor: int)
    requires FrontGap(s, cursor).0 == []
    ensures Pending(s, cursor) == Remaining(s, cursor)
  {
    hide Remaining;
    assert [] + Remaining(s, cursor) == Remaining(s, cursor);
  }

  lemma FrontGapStaysClosed(s: SpoolState, cursor: int, next: int)
    requires FrontGap(s, cursor).0 == [] && cursor <= next
    ensures FrontGap(s, next).0 == []
  {
  }

  /** With the front settled, what is pending starts with the next retained row. */
  lemma NextRowHeads(s: SpoolState, k: int)
    requires ValidSpool(s) && 0 <= k && FrontGap(s, k).0 == [] && Pending(s, k) != []
    ensures RowsAfter(s.rows, k) != []
    ensures var row := RowsAfter(s.rows, k)[0];
            && k < row.sequence <= s.highWatermark <= I64_MAX && row.event.sourceId == s.sourceId
            && Pending(s, k) == RowFrames(row, k) + Remaining(s, row.sequence)
            && RowsAfter(s.rows, row.sequence) == RowsAfter(s.rows, k)[1..]
            && Pending(s, row.sequence) == Remaining(s, row.sequence)
  {
    hide ValidSpool, FrontGap, RowsAfter, Remaining, RowFrames, Pending;
    var rest := RowsAfter(s.rows, k);
    NoFrontGapPending(s, k);
    NoRowsNoFrames(s, k);
    assert rest == rest[0..];
    NextRow(s, rest, 0, k);
    SoundRow(s, rest[0]);
    FrontGapStaysClosed(s, k, rest[0].sequence);
    NoFrontGapPending(s, rest[0].sequence);
  }

  /** Right below the next row, past a hole, only that row and what follows is pending. */
  lemma BelowNextRow(s: SpoolState, k: int)
    requires ValidSpool(s) && 0 <= k && FrontGap(s, k).0 == [] && RowsAfter(s.rows, k) != []
    ensures var row := RowsAfter(s.rows, k)[0];
            && k < row.sequence
            && RowsAfter(s.rows, row.sequence - 1) == RowsAfter(s.rows, k)
            && Pending(s, row.sequence - 1) == RowFrames(row, row.sequence - 1) + Remaining(s, row.sequence)
  {
    hide ValidSpool, FrontGap, RowsAfter, Remaining, RowFrames, Ascending, Pending;
    var rest := RowsAfter(s.rows, k);
    SoundOrder(s);
    RowsAfterIsSuffix(s.rows, k);
    SameRowsBelow(s.rows, k, rest[0].sequence - 1);
    assert rest == rest[0..];
    NextRow(s, rest, 0, rest[0].sequence - 1);
    FrontGapStaysClosed(s, k, rest[0].sequence - 1);
    NoFrontGapPending(s, rest[0].sequence - 1);
  }

  lemma RowHeads(s: SpoolState, k: int)
    requires ValidSpool(s) && 0 <= k && FrontGap(s, k).0 == [] && Pending(s, k) != []
    ensures Heads(s, k, Pending(s, k)[0])
    ensures Pending(s, NextCursor(Pending(s, k)[0])) == Pending(s, k)[1..]
  {
    hide ValidSpool, FrontGap, RowsAfter, Remaining, Pending;
    NextRowHeads(s, k);
    BelowNextRow(s, k);
    var row := RowsAfter(s.rows, k)[0];
    FrontGapStaysClosed(s, k, row.sequence - 1);
    FrontGapStaysClosed(s, k, row.sequence);
    var event := EventFrame(row.sequence, RemoveTerminalActivationMetadata(row.event));
    if row.sequence > k + 1 {
      var gap := Gap(k, Some(row.sequence), row.sequence - 1);
      assert RowFrames(row, k) == [gap] + [event] && RowFrames(row, row.sequence - 1) == [event];
      assert ([gap] + [event]) + Remaining(s, row.sequence) == [gap] + ([event] + Remaining(s, row.sequence));
    } else {
      assert RowFrames(row, k) == [event];
    }
  }

  lemma NoRowsNoFrames(s: SpoolState, cursor: int)
    ensures RowsAfter(s.rows, cursor) == [] ==> Remaining(s, cursor) == []
  {
  }

  lemma SoundRow(s: SpoolState, row: SpoolRow)
    requires ValidSpool(s) && row in s.rows
    ensures 0 < row.sequence <= s.highWatermark <= I64_MAX && row.event.sourceId == s.sourceId
  {
  }

  lemma PendingStep(s: SpoolState, k: int)
    requires ValidSpool(s) && 0 <= k && Pending(s, k) != []
    ensures Heads(s, k, Pending(s, k)[0])
    ensures Pending(s, NextCursor(Pending(s, k)[0])) == Pending(s, k)[1..]
  {
    hide ValidSpool, FrontGap, Remaining, Heads;
    if FrontGap(s, k).0 != [] { FrontGapHeads(s, k); } else { RowHeads(s, k); }
  }

  // ---- Delivering what is pending ----

  /** The durable effect of a run of frames; the first refusal ends it. */
  function DeliverAll(db: Db, key: string, frames: seq<Frame>, at: int, sizeOf: Sizer): Persisted
    decreases |frames|
  {
    if frames == [] then Persisted(db, Ok(EMPTY_REPORT))
    else
      var p := Persist(db, key, 0, Known(frames[0]), at, sizeOf);
      if p.result.Err? then p
      else
        var rest := DeliverAll(p.db, key, frames[1..], at, sizeOf);
        if rest.result.Err? then rest else Persisted(rest.db, Ok(Merge(p.result.value, rest.result.value)))
  }

  /** The source is pinned to this identity and its durable cursor is k. */
  ghost predicate Standing(db: Db, key: string, id: Uuid, k: int) {
    Sound(db) && key in db.sources && db.sources[key].pinned == Some(id) && db.sources[key].cursor == k
  }

  /** Delivering the head of what is pending moves the durable cursor past it, or changes nothing. */
  lemma PersistMoves(db: Db, key: string, s: SpoolState, k: int, f: Frame, at: int, sizeOf: Sizer)
    requires Standing(db, key, s.sourceId, k) && Heads(s, k, f) && 0 <= k
    ensures var p := Persist(db, key, 0, Known(f), at, sizeOf);
            if p.result.Err? then p.db == db && p.result.error.FromDesktop?
            else Standing(p.db, key, s.sourceId, NextCursor(f)) && p.db.sources[key].localLabel == db.sources[key].localLabel
  {
    hide Sound, FrontGap, ValidFrame, Tables.IngestEvent, Tables.RecordGap;
    match f
    case EventFrame(sequence, event) =>
      var stripped := RemoveTerminalActivationMetadata(event);
      IngestMoves(db, key, sequence, stripped, sizeOf(stripped), at);
    case Gap(requestedAfter, _, lostThrough) => GapMoves(db, key, requestedAfter, lostThrough, at);
  }

  lemma PersistAgrees(er: Erasure, a: Db, b: Db, key: string, s: SpoolState, k: int, f: Frame, t: int, u: int, sizeOf: Sizer)
    requires Standing(a, key, s.sourceId, k) && Standing(b, key, s.sourceId, k) && Shape(er, a) == Shape(er, b)
    requires Heads(s, k, f) && 0 <= k && (er.times || t == u)
    ensures var x, y := Persist(a, key, 0, Known(f), t, sizeOf), Persist(b, key, 0, Known(f), u, sizeOf);
            x.result == y.result && Shape(er, x.db) == Shape(er, y.db)
  {
    hide Sound, FrontGap, ValidFrame, Tables.IngestEvent, Tables.RecordGap, Shape, ShapeEvent;
    match f
    case EventFrame(sequence, event) =>
      var stripped := RemoveTerminalActivationMetadata(event);
      IngestAgrees(er, a, b, key, sequence, stripped, stripped, sizeOf(stripped), sizeOf(stripped), t, u);
    case Gap(requestedAfter, _, lostThrough) => RecordGapAgrees(er, a, b, key, requestedAfter, lostThrough, t, u);
  }

  /** Databases that look the same end up looking the same. */
  lemma {:induction false} PendingAgrees(er: Erasure, a: Db, b: Db, key: string, s: SpoolState, k: int, t: int, u: int, sizeOf: Sizer)
    requires ValidSpool(s) && 0 <= k
    requires Standing(a, key, s.sourceId, k) && Standing(b, key, s.sourceId, k) && Shape(er, a) == Shape(er, b)
    requires er.times || t == u
    ensures var x, y := DeliverAll(a, key, Pending(s, k), t, sizeOf), DeliverAll(b, key, Pending(s, k), u, sizeOf);
            x.result == y.result && Shape(er, x.db) == Shape(er, y.db)
    decreases |Pending(s, k)|
  {
    hide ValidSpool, Standing, Pending, Shape, Persist;
    if Pending(s, k) != [] {
      var f := Pending(s, k)[0];
      PendingStep(s, k);
      PersistAgrees(er, a, b, key, s, k, f, t, u, sizeOf);
      PersistMoves(a, key, s, k, f, t, sizeOf);
      PersistMoves(b, key, s, k, f, u, sizeOf);
      var p, q := Persist(a, key, 0, Known(f), t, sizeOf), Persist(b, key, 0, Known(f), u, sizeOf);
      if p.result.Ok? {
        PendingAgrees(er, p.db, q.db, key, s, NextCursor(f), t, u, sizeOf);
      }
    }
  }

  // ---- Sessions ----

  datatype Received = Received(frame: Frame, at: int)

  /** A consumer offered frames in order; the first refusal ends the session. */
  function Play(c: Consumer, received: seq<Received>, sizeOf: Sizer): Consumed
    decreases |received|
  {
    if received == [] then Consumed(c, Ok(EMPTY_REPORT))
    else
      var first := Consume(c, Known(received[0].frame), received[0].at, sizeOf);
      if first.result.Err? then first
      else
        var rest := Play(first.after, received[1..], sizeOf);
        if rest.result.Err? then rest else Consumed(rest.after, Ok(Merge(first.result.value, rest.result.value)))
  }

  /** A consumer in the middle of a stream of this spool, level with storage. */
  ghost predicate InStream(c: Consumer, s: SpoolState) {
    && c.handshake && c.validator.phase == Active && c.validator.sourceId == Some(s.sourceId)
    && 0 <= c.validator.cursor && Standing(c.db, c.key, s.sourceId, c.validator.cursor)
    && c.validator.requiredGap == LostThrough(c.validator.cursor, Oldest(s), s.highWatermark)
  }

  lemma FrontGapIsLostThrough(s: SpoolState, k: int)
    ensures FrontGap(s, k).0 == [] <==> LostThrough(k, Oldest(s), s.highWatermark) == None
    ensures FrontGap(s, k).0 != [] ==>
              FrontGap(s, k).0[0] == Gap(k, Oldest(s), FrontGap(s, k).1)
              && LostThrough(k, Oldest(s), s.highWatermark) == Some(FrontGap(s, k).1)
  {
  }

  /** The next pending frame is accepted, and what it does to the database decides. */
  lemma CanonicalStep(c: Consumer, s: SpoolState, at: int, sizeOf: Sizer)
    requires ValidSpool(s) && InStream(c, s) && Pending(s, c.validator.cursor) != []
    ensures var f := Pending(s, c.validator.cursor)[0];
            var r, p := Consume(c, Known(f), at, sizeOf), Persist(c.db, c.key, 0, Known(f), at, sizeOf);
            && Heads(s, c.validator.cursor, f) && r.result == p.result
            && (if r.result.Err? then r.after == c
                else InStream(r.after, s) && r.after.db == p.db && r.after.key == c.key
                     && r.after.validator.cursor == NextCursor(f)
                     && p.db.sources[c.key].localLabel == c.db.sources[c.key].localLabel)
  {
    hide ValidSpool, Sound, Pending, FrontGap, LostThrough, ValidFrame, Tables.IngestEvent, Tables.RecordGap;
    var k := c.validator.cursor;
    PendingStep(s, k);
    var f := Pending(s, k)[0];
    PersistMoves(c.db, c.key, s, k, f, at, sizeOf);
    FrontGapIsLostThrough(s, k);
    FrontGapIsLostThrough(s, NextCursor(f));
  }

  /** Anything old, and every heartbeat, leaves the database and the cursor alone. */
  lemma ReplayStep(c: Consumer, s: SpoolState, f: Frame, at: int, sizeOf: Sizer)
    requires InStream(c, s) && (f.Heartbeat? || (f.EventFrame? && f.sequence <= c.validator.cursor))
    ensures var r := Consume(c, Known(f), at, sizeOf);
            && InStream(r.after, s) && r.after.db == c.db && r.after.key == c.key
            && r.after.validator == c.validator
  {
    hide Sound, AcceptReplay, LostThrough;
    if f.EventFrame? {
      ReplayChangesNothing(c, f.sequence, f.event, at, sizeOf);
    }
  }

  function Frames(received: seq<Received>): seq<Frame> {
    seq(|received|, i requires 0 <= i < |received| => received[i].frame)
  }

  ghost predicate ReceivedAt(er: Erasure, received: seq<Received>, at: int) {
    er.times || forall r :: r in received ==> r.at == at
  }

  /** Offered everything pending, in any number of deliveries, a consumer does what delivery in one go would. */
  lemma {:induction false} PlayDelivers(er: Erasure, c: Consumer, s: SpoolState, received: seq<Received>, at: int, sizeOf: Sizer)
    requires ValidSpool(s) && InStream(c, s) && Frames(received) == Pending(s, c.validator.cursor)
    requires ReceivedAt(er, received, at)
    ensures var r, d := Play(c, received, sizeOf), DeliverAll(c.db, c.key, Pending(s, c.validator.cursor), at, sizeOf);
            r.result == d.result && Shape(er, r.after.db) == Shape(er, d.db)
    decreases |received|
  {
    hide ValidSpool, Standing, Pending, Shape, Persist, Consume, Heads, LostThrough;
    var k := c.validator.cursor;
    if received != [] {
      var f, t := received[0].frame, received[0].at;
      assert Frames(received)[0] == f && Frames(received)[1..] == Frames(received[1..]);
      assert received[0] in received;
      CanonicalStep(c, s, t, sizeOf);
      PendingStep(s, k);
      PersistAgrees(er, c.db, c.db, c.key, s, k, f, t, at, sizeOf);
      PersistMoves(c.db, c.key, s, k, f, at, sizeOf);
      PersistMoves(c.db, c.key, s, k, f, t, sizeOf);
      var r := Consume(c, Known(f), t, sizeOf);
      if r.result.Ok? {
        PlayDelivers(er, r.after, s, received[1..], at, sizeOf);
        PendingAgrees(er, r.after.db, Persist(c.db, c.key, 0, Known(f), at, sizeOf).db, c.key, s, NextCursor(f), at, at, sizeOf);
      }
    } else {
      assert Frames(received) == [];
    }
  }

  // ---- Interruption ----

  /** A stream as an honest peer sends it: what is pending, in order, with heartbeats and any old event in between. */
  ghost predicate Follows(s: SpoolState, k: int, received: seq<Received>)
    decreases |received|
  {
    received == [] ||
    (var f, rest := received[0].frame, received[1..];
     ((f.Heartbeat? || (f.EventFrame? && f.sequence <= k)) && Follows(s, k, rest))
     || (Pending(s, k) != [] && f == Pending(s, k)[0] && Follows(s, NextCursor(f), rest)))
  }

  const TIMELESS := Erasure(false, true)

  /** What catching up from here would leave behind, times aside. */
  function CaughtUp(db: Db, key: string, s: SpoolState, sizeOf: Sizer): Db
    requires key in db.sources
  {
    Shape(TIMELESS, DeliverAll(db, key, Pending(s, db.sources[key].cursor), 0, sizeOf).db)
  }

  /** Whatever part of a stream arrives, catching up afterwards ends where catching up before would have ended. */
  lemma {:induction false} PartialPlayIsHarmless(c: Consumer, s: SpoolState, received: seq<Received>, sizeOf: Sizer)
    requires ValidSpool(s) && InStream(c, s) && Follows(s, c.validator.cursor, received)
    requires c.validator.cursor <= s.highWatermark
    ensures var after := Play(c, received, sizeOf).after.db;
            && c.key in after.sources && after.sources[c.key].cursor <= s.highWatermark
            && 0 <= after.sources[c.key].cursor
            && Standing(after, c.key, s.sourceId, after.sources[c.key].cursor)
            && after.sources[c.key].localLabel == c.db.sources[c.key].localLabel
            && CaughtUp(after, c.key, s, sizeOf) == CaughtUp(c.db, c.key, s, sizeOf)
    decreases |received|
  {
    hide ValidSpool, Sound, Pending, Shape, Persist, Consume, DeliverAll, LostThrough;
    var k := c.validator.cursor;
    if received != [] {
      var f, t, rest := received[0].frame, received[0].at, received[1..];
      var r := Consume(c, Known(f), t, sizeOf);
      if (f.Heartbeat? || (f.EventFrame? && f.sequence <= k)) && Follows(s, k, rest) {
        ReplayStep(c, s, f, t, sizeOf);
        if r.result.Ok? { PartialPlayIsHarmless(r.after, s, rest, sizeOf); }
      } else {
        CanonicalStep(c, s, t, sizeOf);
        if r.result.Ok? {
          PartialPlayIsHarmless(r.after, s, rest, sizeOf);
          CatchingUpGoesOn(c.db, c.key, s, k, t, sizeOf);
        }
      }
    }
  }

  /** Having delivered the next frame at any time, catching up ends in the same place. */
  lemma CatchingUpGoesOn(db: Db, key: string, s: SpoolState, k: int, t: int, sizeOf: Sizer)
    requires ValidSpool(s) && 0 <= k && Standing(db, key, s.sourceId, k) && Pending(s, k) != []
    requires Persist(db, key, 0, Known(Pending(s, k)[0]), t, sizeOf).result.Ok?
    ensures var p := Persist(db, key, 0, Known(Pending(s, k)[0]), t, sizeOf);
            key in p.db.sources && CaughtUp(p.db, key, s, sizeOf) == CaughtUp(db, key, s, sizeOf)
  {
    hide ValidSpool, Sound, Pending, Shape, Persist, DeliverAll, Heads;
    var f := Pending(s, k)[0];
    PendingStep(s, k);
    HeadsBound(s, k, f);
    PersistMoves(db, key, s, k, f, t, sizeOf);
    PersistMoves(db, key, s, k, f, 0, sizeOf);
    PersistAgrees(TIMELESS, db, db, key, s, k, f, t, 0, sizeOf);
    DeliverStep(db, key, Pending(s, k), 0, sizeOf);
    PendingAgrees(TIMELESS, Persist(db, key, 0, Known(f), t, sizeOf).db, Persist(db, key, 0, Known(f), 0, sizeOf).db,
                  key, s, NextCursor(f), 0, 0, sizeOf);
  }

  lemma HeadsBound(s: SpoolState, k: int, f: Frame)
    requires Heads(s, k, f)
    ensures k < NextCursor(f) <= s.highWatermark
  {
  }

  // ---- Whole sessions ----

  datatype SessionEnd = SessionEnd(db: Db, result: Result<Report, ConsumerError>)

  /** One bridge process from the desktop's side: open a consumer, then offer it what arrives. */
  function RunSession(db: Db, key: string, localLabel: string, startedAt: int, received: seq<Received>, sizeOf: Sizer): SessionEnd {
    match OpenConsumer(db, key, localLabel, startedAt)
    case Err(e) => SessionEnd(db, Err(e))
    case Ok(c) =>
      var r := Play(c, received, sizeOf);
      SessionEnd(r.after.db, r.result)
  }

  /** The cursor a session opens at. */
  function OpeningCursor(db: Db, key: string): int {
    if key in db.sources then db.sources[key].cursor else 0
  }

  /** Pinned to this spool and not ahead of it, or not pinned at all and the spool never seen before. */
  ghost predicate Ready(db: Db, key: string, s: SpoolState) {
    && Sound(db)
    && (if key in db.sources && db.sources[key].pinned.Some?
        then db.sources[key].pinned == Some(s.sourceId) && db.sources[key].cursor <= s.highWatermark
        else !OwnedElsewhere(db, key, s.sourceId) && KnownHighWatermark(db, s.sourceId) == 0)
  }

  /** The database once the source is registered under this label and pinned to the spool. */
  function Based(db: Db, key: string, localLabel: string, id: Uuid): Db {
    Tables.PinSource(Tables.RegisterSource(db, key, localLabel).db, key, id).db
  }

  lemma BasedIsStanding(db: Db, key: string, localLabel: string, s: SpoolState)
    requires ValidSpool(s) && Ready(db, key, s) && ValidLocalText(key) && ValidLocalText(localLabel)
    ensures var base, registered := Based(db, key, localLabel, s.sourceId), Tables.RegisterSource(db, key, localLabel);
            && registered.result.Ok? && Sound(registered.db)
            && key in registered.db.sources && registered.db.sources[key].cursor == OpeningCursor(db, key)
            && Tables.PinSource(registered.db, key, s.sourceId).result.Ok?
            && Standing(base, key, s.sourceId, OpeningCursor(db, key))
            && base.sources[key].localLabel == localLabel
            && 0 <= OpeningCursor(db, key) <= s.highWatermark
  {
    hide Sound;
    var registered := Tables.RegisterSource(db, key, localLabel);
    PinnedCursorIsNatural(db, key, localLabel, s.sourceId);
    UnpinnedStandsAtZero(db);
    SameTraces(db, registered.db, s.sourceId);
  }

  lemma UnpinnedStandsAtZero(db: Db)
    requires Sound(db)
    ensures forall k :: k in db.sources ==> 0 <= db.sources[k].cursor
    ensures forall k :: k in db.sources && db.sources[k].pinned.None? ==> db.sources[k].cursor == 0
  {
  }

  lemma SameTraces(a: Db, b: Db, id: Uuid)
    requires b == a.(sources := b.sources)
    ensures KnownHighWatermark(a, id) == KnownHighWatermark(b, id)
  {
  }

  /** Hello is accepted, pins the source and puts the consumer in the stream, level with storage. */
  lemma HelloOpens(db: Db, key: string, localLabel: string, s: SpoolState, startedAt: int, at: int, sizeOf: Sizer)
    requires ValidSpool(s) && Ready(db, key, s) && ValidLocalText(key) && ValidLocalText(localLabel)
    ensures var opening := OpenConsumer(db, key, localLabel, startedAt);
            && opening.Ok?
            && opening.value.db == Tables.RegisterSource(db, key, localLabel).db
            && var r := Consume(opening.value, Known(HelloOf(s)), at, sizeOf);
            && r.result == Ok(ONE_FRAME) && InStream(r.after, s)
            && r.after.db == Based(db, key, localLabel, s.sourceId) && r.after.key == key
            && r.after.validator.cursor == OpeningCursor(db, key)
  {
    hide Sound, ValidSpool, LostThrough, KnownHighWatermark, OwnedElsewhere, Ready, Tables.RegisterSource, OpeningCursor;
    BasedIsStanding(db, key, localLabel, s);
    SnapshotOfSound(s);
    SpoolIdentity(s);
  }

  lemma SpoolIdentity(s: SpoolState)
    requires ValidSpool(s)
    ensures s.sourceId.rfc4122 && 0 <= s.highWatermark
  {
  }

  /** A complete session delivers exactly what was pending when it opened. */
  lemma SessionDelivers(er: Erasure, db: Db, key: string, localLabel: string, s: SpoolState, startedAt: int,
                        received: seq<Received>, at: int, sizeOf: Sizer)
    requires ValidSpool(s) && Ready(db, key, s) && ValidLocalText(key) && ValidLocalText(localLabel)
    requires Frames(received) == QuietStream(s, OpeningCursor(db, key)) && ReceivedAt(er, received, at)
    ensures var e := RunSession(db, key, localLabel, startedAt, received, sizeOf);
            var d := DeliverAll(Based(db, key, localLabel, s.sourceId), key, Pending(s, OpeningCursor(db, key)), at, sizeOf);
            && Shape(er, e.db) == Shape(er, d.db)
            && e.result == if d.result.Err? then d.result else Ok(Merge(ONE_FRAME, d.result.value))
  {
    hide ValidSpool, Ready, Based, Pending, InStream, Consume, OpenConsumer, DeliverAll, Shape, QuietStream, HelloOf;
    QuietStreamIsHelloThenPending(s, OpeningCursor(db, key));
    assert received[0].frame == Frames(received)[0] == HelloOf(s);
    assert Frames(received[1..]) == Frames(received)[1..] == Pending(s, OpeningCursor(db, key));
    HelloOpens(db, key, localLabel, s, startedAt, received[0].at, sizeOf);
    var c := OpenConsumer(db, key, localLabel, startedAt).value;
    var r := Consume(c, Known(HelloOf(s)), received[0].at, sizeOf);
    PlayDelivers(er, r.after, s, received[1..], at, sizeOf);
  }

  /** A session as far as it got: cut before hello, or somewhere after it. */
  ghost predicate PartOfSession(s: SpoolState, cursor: int, received: seq<Received>) {
    received == [] || (received[0].frame == HelloOf(s) && Follows(s, cursor, received[1..]))
  }

  lemma PartialSessionIsHarmless(db: Db, key: string, localLabel: string, s: SpoolState, startedAt: int,
                                 received: seq<Received>, sizeOf: Sizer)
    requires ValidSpool(s) && Ready(db, key, s) && ValidLocalText(key) && ValidLocalText(localLabel)
    requires PartOfSession(s, OpeningCursor(db, key), received)
    ensures var after := RunSession(db, key, localLabel, startedAt, received, sizeOf).db;
            && Ready(after, key, s)
            && key in Based(after, key, localLabel, s.sourceId).sources && key in Based(db, key, localLabel, s.sourceId).sources
            && CaughtUp(Based(after, key, localLabel, s.sourceId), key, s, sizeOf)
               == CaughtUp(Based(db, key, localLabel, s.sourceId), key, s, sizeOf)
  {
    hide ValidSpool, Pending, Consume, OpenConsumer, DeliverAll, Shape, HelloOf, Sound, KnownHighWatermark, CaughtUp, Follows;
    BasedIsStanding(db, key, localLabel, s);
    var base := Based(db, key, localLabel, s.sourceId);
    var after := RunSession(db, key, localLabel, startedAt, received, sizeOf).db;
    if received == [] {
      HelloOpens(db, key, localLabel, s, startedAt, 0, sizeOf);
      SameTraces(db, after, s.sourceId);
      RegisteredTwice(db, key, localLabel);
    } else {
      HelloOpens(db, key, localLabel, s, startedAt, received[0].at, sizeOf);
      var c := Consume(OpenConsumer(db, key, localLabel, startedAt).value, Known(HelloOf(s)), received[0].at, sizeOf).after;
      PartialPlayIsHarmless(c, s, received[1..], sizeOf);
      RelabelSame(after, key, localLabel);
    }
  }

  lemma RegisteredTwice(db: Db, key: string, localLabel: string)
    requires ValidLocalText(key) && ValidLocalText(localLabel)
    ensures var once := Tables.RegisterSource(db, key, localLabel).db;
            Tables.RegisterSource(once, key, localLabel).db == once
  {
    var once := Tables.RegisterSource(db, key, localLabel).db;
    RelabelSame(once, key, localLabel);
  }

  lemma RelabelSame(db: Db, key: string, localLabel: string)
    requires key in db.sources && db.sources[key].localLabel == localLabel
    ensures Tables.RegisterSource(db, key, localLabel).db == db
  {
    assert db.sources[key := db.sources[key]] == db.sources;
  }

  datatype Session = Session(startedAt: int, received: seq<Received>)

  function AfterSessions(db: Db, key: string, localLabel: string, sessions: seq<Session>, sizeOf: Sizer): Db
    decreases |sessions|
  {
    if sessions == [] then db
    else AfterSessions(RunSession(db, key, localLabel, sessions[0].startedAt, sessions[0].received, sizeOf).db,
                       key, localLabel, sessions[1..], sizeOf)
  }

  /** Each session is reopened from the durable cursor and cut off anywhere; old events may be repeated in any of them. */
  ghost predicate InterruptedSessions(db: Db, key: string, localLabel: string, s: SpoolState, sessions: seq<Session>, sizeOf: Sizer)
    decreases |sessions|
  {
    sessions == [] ||
    (PartOfSession(s, OpeningCursor(db, key), sessions[0].received)
     && InterruptedSessions(RunSession(db, key, localLabel, sessions[0].startedAt, sessions[0].received, sizeOf).db,
                            key, localLabel, s, sessions[1..], sizeOf))
  }

  lemma {:induction false} InterruptedSessionsAreHarmless(db: Db, key: string, localLabel: string, s: SpoolState,
                                                          sessions: seq<Session>, sizeOf: Sizer)
    requires ValidSpool(s) && Ready(db, key, s) && ValidLocalText(key) && ValidLocalText(localLabel)
    requires InterruptedSessions(db, key, localLabel, s, sessions, sizeOf)
    ensures var after := AfterSessions(db, key, localLabel, sessions, sizeOf);
            && Ready(after, key, s)
            && key in Based(after, key, localLabel, s.sourceId).sources && key in Based(db, key, localLabel, s.sourceId).sources
            && CaughtUp(Based(after, key, localLabel, s.sourceId), key, s, sizeOf)
               == CaughtUp(Based(db, key, localLabel, s.sourceId), key, s, sizeOf)
    decreases |sessions|
  {
    hide ValidSpool, Ready, Based, RunSession, CaughtUp, PartOfSession;
    if sessions == [] {
      BasedIsStanding(db, key, localLabel, s);
    } else {
      PartialSessionIsHarmless(db, key, localLabel, s, sessions[0].startedAt, sessions[0].received, sizeOf);
      InterruptedSessionsAreHarmless(RunSession(db, key, localLabel, sessions[0].startedAt, sessions[0].received, sizeOf).db,
                                     key, localLabel, s, sessions[1..], sizeOf);
    }
  }

  /**
   * Crash and reconnect: any series of interrupted sessions, each possibly replaying old events, followed by one
   * that runs to its end leaves the same sources, events, gaps, tombstones, checkpoints and outbox rows as one
   * uninterrupted session, reception times aside.
   */
  lemma CrashAndReconnect(db: Db, key: string, localLabel: string, s: SpoolState, interrupted: seq<Session>,
                          last: Session, once: Session, sizeOf: Sizer)
    requires ValidSpool(s) && Ready(db, key, s) && ValidLocalText(key) && ValidLocalText(localLabel)
    requires InterruptedSessions(db, key, localLabel, s, interrupted, sizeOf)
    requires Frames(last.received)
          == QuietStream(s, OpeningCursor(AfterSessions(db, key, localLabel, interrupted, sizeOf), key))
    requires Frames(once.received) == QuietStream(s, OpeningCursor(db, key))
    ensures var resumed := AfterSessions(db, key, localLabel, interrupted, sizeOf);
            Shape(TIMELESS, RunSession(resumed, key, localLabel, last.startedAt, last.received, sizeOf).db)
            == Shape(TIMELESS, RunSession(db, key, localLabel, once.startedAt, once.received, sizeOf).db)
    ensures var resumed := AfterSessions(db, key, localLabel, interrupted, sizeOf);
            Alike(TIMELESS, RunSession(resumed, key, localLabel, last.startedAt, last.received, sizeOf).db,
                  RunSession(db, key, localLabel, once.startedAt, once.received, sizeOf).db)
  {
    hide ValidSpool, Ready, Based, RunSession, InterruptedSessions, AfterSessions, DeliverAll, Shape, QuietStream, Pending, OpeningCursor, Alike;
    var resumed := AfterSessions(db, key, localLabel, interrupted, sizeOf);
    InterruptedSessionsAreHarmless(db, key, localLabel, s, interrupted, sizeOf);
    SessionDelivers(TIMELESS, db, key, localLabel, s, once.startedAt, once.received, 0, sizeOf);
    SessionDelivers(TIMELESS, resumed, key, localLabel, s, last.startedAt, last.received, 0, sizeOf);
    BasedIsStanding(db, key, localLabel, s);
    BasedIsStanding(resumed, key, localLabel, s);
    SameShapeIffAlike(TIMELESS, RunSession(resumed, key, localLabel, last.startedAt, last.received, sizeOf).db,
                      RunSession(db, key, localLabel, once.startedAt, once.received, sizeOf).db);
  }

  // ---- The two paths ----

  /** The rows follow the cursor without a hole. */
  ghost predicate Unbroken(rows: seq<SpoolRow>, cursor: int) {
    forall i :: 0 <= i < |rows| ==> rows[i].sequence == cursor + 1 + i
  }

  /** Past the front of the log, no hole is left ahead of this cursor. */
  ghost predicate NoHoleAhead(s: SpoolState, cursor: int) {
    Unbroken(RowsAfter(s.rows, FrontGap(s, cursor).1), FrontGap(s, cursor).1)
  }

  lemma UnbrokenRunStaysUnbroken(rows: seq<SpoolRow>, from: int)
    requires rows != [] ==> rows[0].sequence <= from + 1
    requires forall i :: 0 <= i < |rows| ==> rows[i].sequence == rows[0].sequence + i
    ensures Unbroken(RowsAfter(rows, from), from)
  {
    hide RowsAfter;
    RowsAfterIsSuffix(rows, from);
    var rest := RowsAfter(rows, from);
    var k := |rows| - |rest|;
    if rest != [] {
      assert k > 0 ==> rows[k - 1].sequence <= from;
      assert rows[k].sequence == from + 1;
      forall i | 0 <= i < |rest| ensures rest[i].sequence == from + 1 + i {
        assert rest[i] == rows[k + i];
      }
    }
  }

  lemma ContiguousMeansNoHole(s: SpoolState, cursor: int)
    requires ContiguousSuffix(s) && cursor <= s.highWatermark
    ensures NoHoleAhead(s, cursor)
  {
    hide RowsAfter, Unbroken;
    UnbrokenRunStaysUnbroken(s.rows, FrontGap(s, cursor).1);
  }

  const METADATA_ASIDE := Erasure(true, false)

  /** The same outcome, in the two paths' own terms. */
  predicate SameOutcome(remote: Result<Report, ConsumerError>, direct: Result<IngestReport, PipelineError>) {
    match (remote, direct)
    case (Ok(a), Ok(b)) => a.ingested == b.ingested && a.duplicates == b.duplicates && a.gaps == b.gaps
    case (Err(FromDesktop(e)), Err(FromDatabase(f))) => e == f
    case _ => false
  }

  /** A delivery started with this direct report on the other side. */
  function Onto(before: IngestReport, remote: Result<Report, ConsumerError>): Result<Report, ConsumerError> {
    if remote.Err? then remote
    else
      var r := remote.value;
      Ok(r.(ingested := before.ingested + r.ingested, duplicates := before.duplicates + r.duplicates, gaps := before.gaps + r.gaps))
  }

  lemma {:induction false} RowsAgree(er: Erasure, a: Db, b: Db, key: string, s: SpoolState, k: int, at: int, sizeOf: Sizer, before: IngestReport)
    requires ValidSpool(s) && 0 <= k && er.payload && FrontGap(s, k).0 == [] && Unbroken(RowsAfter(s.rows, k), k)
    requires Standing(a, key, s.sourceId, k) && Standing(b, key, s.sourceId, k) && Shape(er, a) == Shape(er, b)
    ensures var x := DeliverAll(a, key, Pending(s, k), at, sizeOf);
            var y := IngestRows(b, key, RowsAfter(s.rows, k), at, sizeOf, before);
            Shape(er, x.db) == Shape(er, y.db) && SameOutcome(Onto(before, x.result), y.result)
    decreases |RowsAfter(s.rows, k)|
  {
    hide ValidSpool, Sound, FrontGap, Shape, RowsAfter, Pending, Remaining, Tables.IngestEvent;
    if RowsAfter(s.rows, k) == [] {
      NoFrontGapPending(s, k);
      NoRowsNoFrames(s, k);
    } else {
      BelowNextRow(s, k);
      var row := RowsAfter(s.rows, k)[0];
      assert row.sequence == k + 1;
      var f := EventFrame(row.sequence, RemoveTerminalActivationMetadata(row.event));
      assert RowFrames(row, k) == [f];
      FirstOf(f, Remaining(s, k + 1), Pending(s, k));
      PendingStep(s, k);
      NextRowHeads(s, k);
      FrontGapStaysClosed(s, k, k + 1);
      RowStepAgrees(er, a, b, key, s, k, row, at, sizeOf);
      var x := Persist(a, key, 0, Known(f), at, sizeOf);
      var y := Tables.IngestEvent(b, key, row.sequence, row.event, sizeOf(row.event), at);
      if x.result.Ok? {
        assert Unbroken(RowsAfter(s.rows, k)[1..], k + 1);
        RowsAgree(er, x.db, y.db, key, s, k + 1, at, sizeOf, Count(before, y.result.value));
      }
    }
  }

  lemma FirstOf(f: Frame, rest: seq<Frame>, all: seq<Frame>)
    requires all == [f] + rest
    ensures all != [] && all[0] == f && all[1..] == rest
  {
  }

  /** One row on both paths: the bridge's stripped event and the spool's own have the same effect, metadata aside. */
  lemma RowStepAgrees(er: Erasure, a: Db, b: Db, key: string, s: SpoolState, k: int, row: SpoolRow, at: int, sizeOf: Sizer)
    requires er.payload && 0 <= k && k + 1 == row.sequence <= I64_MAX && row.event.sourceId == s.sourceId
    requires Standing(a, key, s.sourceId, k) && Standing(b, key, s.sourceId, k) && Shape(er, a) == Shape(er, b)
    ensures var x := Persist(a, key, 0, Known(EventFrame(row.sequence, RemoveTerminalActivationMetadata(row.event))), at, sizeOf);
            var y := Tables.IngestEvent(b, key, row.sequence, row.event, sizeOf(row.event), at);
            && Shape(er, x.db) == Shape(er, y.db)
            && (y.result.Err? ==> x.result == Err(FromDesktop(y.result.error)))
            && (y.result.Ok? ==> y.result.value.Inserted? && x.result == Ok(ONE_FRAME.(ingested := 1))
                                 && Standing(x.db, key, s.sourceId, k + 1) && Standing(y.db, key, s.sourceId, k + 1))
  {
    hide Sound, Shape, Tables.IngestEvent;
    var stripped := RemoveTerminalActivationMetadata(row.event);
    RemovalIsIdempotent(row.event);
    IngestAgrees(er, a, b, key, row.sequence, RemoveTerminalActivationMetadata(stripped), row.event,
                 sizeOf(RemoveTerminalActivationMetadata(stripped)), sizeOf(row.event), at, at);
    IngestMoves(a, key, row.sequence, stripped, sizeOf(stripped), at);
    IngestMoves(b, key, row.sequence, row.event, sizeOf(row.event), at);
  }

  lemma DirectDelivers(er: Erasure, db: Db, key: string, s: SpoolState, k: int, at: int, sizeOf: Sizer)
    requires ValidSpool(s) && er.payload && 0 <= k <= s.highWatermark && NoHoleAhead(s, k)
    requires Standing(db, key, s.sourceId, k)
    ensures var x := DeliverAll(db, key, Pending(s, k), at, sizeOf);
            var y := IngestFrom(s, db, key, Snapshot(s.sourceId, Oldest(s), s.highWatermark), at, sizeOf);
            Shape(er, x.db) == Shape(er, y.db) && SameOutcome(x.result, y.result)
  {
    hide ValidSpool, Sound, FrontGap, LostThrough, Shape, RowsAfter, Pending, IngestPages, IngestRows, Unbroken, DeliverAll;
    FrontGapIsLostThrough(s, k);
    if FrontGap(s, k).0 == [] {
      FrontGapUnmoved(s, k);
      PagesAreRows(s, db, key, k, at, sizeOf, IngestReport(0, 0, 0));
      RowsAgree(er, db, db, key, s, k, at, sizeOf, IngestReport(0, 0, 0));
    } else {
      GapThenRowsAgree(er, db, key, s, k, at, sizeOf);
    }
  }

  lemma GapThenRowsAgree(er: Erasure, db: Db, key: string, s: SpoolState, k: int, at: int, sizeOf: Sizer)
    requires ValidSpool(s) && er.payload && 0 <= k <= s.highWatermark && NoHoleAhead(s, k) && FrontGap(s, k).0 != []
    requires Standing(db, key, s.sourceId, k)
    ensures var through := FrontGap(s, k).1;
            var x := DeliverAll(db, key, Pending(s, k), at, sizeOf);
            var t := Tables.RecordGap(db, key, k, through, at);
            if t.result.Err? then x == Persisted(t.db, Err(FromDesktop(t.result.error)))
            else
              var y := IngestPages(s, t.db, key, through, at, sizeOf, IngestReport(0, 0, 1));
              0 <= through && Shape(er, x.db) == Shape(er, y.db) && SameOutcome(x.result, y.result)
  {
    hide ValidSpool, Sound, FrontGap, Shape, RowsAfter, Pending, IngestPages, IngestRows, Unbroken, Tables.RecordGap, Heads, DeliverAll;
    var through := FrontGap(s, k).1;
    FrontGapHeads(s, k);
    GapHead(s, k);
    var f := Pending(s, k)[0];
    PersistMoves(db, key, s, k, f, at, sizeOf);
    DeliverStep(db, key, Pending(s, k), at, sizeOf);
    var p := Persist(db, key, 0, Known(f), at, sizeOf);
    RecordedNew(db, key, k, through, at);
    if p.result.Ok? {
      FrontGapUnmoved(s, through);
      PagesAreRows(s, p.db, key, through, at, sizeOf, IngestReport(0, 0, 1));
      RowsAgree(er, p.db, p.db, key, s, through, at, sizeOf, IngestReport(0, 0, 1));
    }
  }

  lemma DeliverStep(db: Db, key: string, frames: seq<Frame>, at: int, sizeOf: Sizer)
    requires frames != []
    ensures var p := Persist(db, key, 0, Known(frames[0]), at, sizeOf);
            DeliverAll(db, key, frames, at, sizeOf)
            == if p.result.Err? then p
               else
                 var rest := DeliverAll(p.db, key, frames[1..], at, sizeOf);
                 if rest.result.Err? then rest else Persisted(rest.db, Ok(Merge(p.result.value, rest.result.value)))
  {
    hide Persist, Merge;
  }

  lemma FrontGapUnmoved(s: SpoolState, k: int)
    ensures FrontGap(s, k).0 == [] ==> FrontGap(s, k).1 == k
  {
  }

  lemma GapHead(s: SpoolState, k: int)
    requires ValidSpool(s) && FrontGap(s, k).0 != []
    ensures Pending(s, k) != [] && Pending(s, k)[0] == Gap(k, Oldest(s), FrontGap(s, k).1)
    ensures k < FrontGap(s, k).1 && FrontGap(s, FrontGap(s, k).1).0 == []
  {
    hide Remaining, ValidSpool;
    FrontGapClosesFront(s, k);
  }

  lemma RecordedNew(db: Db, key: string, k: int, through: int, at: int)
    requires key in db.sources && db.sources[key].cursor == k < through
    ensures Tables.RecordGap(db, key, k, through, at).result != Ok(DuplicateGap)
  {
  }

  /**
   * Two paths agree: for a ready source and a quiet spool with no hole ahead, a bridge session and direct ingestion
   * leave the same sources, events, gaps, tombstones, checkpoints and outbox rows up to the stripped
   * terminal-activation metadata, and report the same counts or the same database error.
   */
  lemma TwoPathsAgree(db: Db, key: string, localLabel: string, s: SpoolState, startedAt: int, received: seq<Received>,
                      at: int, sizeOf: Sizer)
    requires ValidSpool(s) && Ready(db, key, s) && NoHoleAhead(s, OpeningCursor(db, key))
    requires Frames(received) == QuietStream(s, OpeningCursor(db, key)) && ReceivedAt(METADATA_ASIDE, received, at)
    ensures var remote := RunSession(db, key, localLabel, startedAt, received, sizeOf);
            var direct := IngestSpool(s, db, key, localLabel, at, sizeOf);
            && Shape(METADATA_ASIDE, remote.db) == Shape(METADATA_ASIDE, direct.db)
            && Alike(METADATA_ASIDE, remote.db, direct.db)
            && SameOutcome(remote.result, direct.result)
  {
    hide ValidSpool, Sound, DeliverAll, Shape, Pending, QuietStream, NoHoleAhead, Play, IngestFrom, KnownHighWatermark, Alike;
    SnapshotOfSound(s);
    SameShapeIffAlike(METADATA_ASIDE, RunSession(db, key, localLabel, startedAt, received, sizeOf).db,
                      IngestSpool(s, db, key, localLabel, at, sizeOf).db);
    if ValidLocalText(key) && ValidLocalText(localLabel) {
      BasedIsStanding(db, key, localLabel, s);
      SessionDelivers(METADATA_ASIDE, db, key, localLabel, s, startedAt, received, at, sizeOf);
      DirectDelivers(METADATA_ASIDE, Based(db, key, localLabel, s.sourceId), key, s, OpeningCursor(db, key), at, sizeOf);
    }
  }

  // ---- A hole ahead separates them ----

  /** Nothing ahead was delivered before under another sequence or identity. */
  ghost predicate Fresh(db: Db, s: SpoolState, k: int) {
    forall r :: r in RowsAfter(s.rows, k) ==> !Traced(db, s.sourceId, r.sequence, r.event.id)
  }

  lemma InsertLeavesOthersUntraced(db: Db, key: string, row: SpoolRow, other: SpoolRow, event: Event, bytes: nat, at: int)
    requires key in db.sources && event.id == row.event.id && other.sequence != row.sequence && other.event.id != row.event.id
    requires !Traced(db, event.sourceId, other.sequence, other.event.id)
    ensures !Traced(InsertEvent(db, key, row.sequence, event, bytes, at), event.sourceId, other.sequence, other.event.id)
  {
  }

  lemma OthersDiffer(s: SpoolState, k: int)
    requires ValidSpool(s) && RowsAfter(s.rows, k) != []
    ensures var rest := RowsAfter(s.rows, k);
            forall r :: r in rest[1..] ==> r in rest && r.sequence != rest[0].sequence && r.event.id != rest[0].event.id
  {
    hide RowsAfter;
    RowsAfterIsSuffix(s.rows, k);
    var rest := RowsAfter(s.rows, k);
    var n := |s.rows| - |rest|;
    forall r | r in rest[1..]
      ensures r in rest && r.sequence != rest[0].sequence && r.event.id != rest[0].event.id
    {
      var i :| 0 <= i < |rest| - 1 && rest[1..][i] == r;
      assert s.rows[n] == rest[0] && s.rows[n + 1 + i] == rest[1 + i] == r;
      assert Sequence(s.rows[n]) < Sequence(s.rows[n + 1 + i]);
    }
  }

  /** Inserting the next row leaves the rows after it untraced. */
  lemma FreshStays(db: Db, key: string, s: SpoolState, k: int, event: Event, bytes: nat, at: int)
    requires ValidSpool(s) && RowsAfter(s.rows, k) != [] && Fresh(db, s, k) && key in db.sources
    requires event.id == RowsAfter(s.rows, k)[0].event.id && event.sourceId == s.sourceId
    ensures Fresh(InsertEvent(db, key, RowsAfter(s.rows, k)[0].sequence, event, bytes, at), s, RowsAfter(s.rows, k)[0].sequence)
  {
    hide RowsAfter, ValidSpool, InsertEvent, Traced, Ascending;
    var rest := RowsAfter(s.rows, k);
    OthersDiffer(s, k);
    SoundOrder(s);
    AfterFirstRow(s.rows, k);
    forall r | r in RowsAfter(s.rows, rest[0].sequence)
      ensures !Traced(InsertEvent(db, key, rest[0].sequence, event, bytes, at), s.sourceId, r.sequence, r.event.id)
    {
      InsertLeavesOthersUntraced(db, key, rest[0], r, event, bytes, at);
    }
  }

  /** With nothing traced ahead, direct ingestion of the rows succeeds exactly when they leave no hole. */
  lemma {:induction false} RowsIngestIffUnbroken(db: Db, key: string, s: SpoolState, k: int, at: int, sizeOf: Sizer, before: IngestReport)
    requires ValidSpool(s) && 0 <= k && Standing(db, key, s.sourceId, k) && Fresh(db, s, k)
    ensures IngestRows(db, key, RowsAfter(s.rows, k), at, sizeOf, before).result.Ok? <==> Unbroken(RowsAfter(s.rows, k), k)
    decreases |RowsAfter(s.rows, k)|
  {
    hide ValidSpool, RowsAfter, Fresh, Unbroken, IngestRows, Count, Standing;
    IngestNothing(db, key, at, sizeOf, before);
    if RowsAfter(s.rows, k) != [] {
      var rest := RowsAfter(s.rows, k);
      IngestFirst(db, key, rest, at, sizeOf, before);
      UnbrokenStep(rest, k);
      NextRowIngests(db, key, s, k, at, sizeOf);
      var t := Tables.IngestEvent(db, key, rest[0].sequence, rest[0].event, sizeOf(rest[0].event), at);
      if t.result.Ok? {
        RowsIngestIffUnbroken(t.db, key, s, k + 1, at, sizeOf, Count(before, t.result.value));
      }
    } else {
      EmptyIsUnbroken(k);
    }
  }

  lemma EmptyIsUnbroken(k: int)
    ensures Unbroken([], k)
  {
  }

  lemma NextRowIngests(db: Db, key: string, s: SpoolState, k: int, at: int, sizeOf: Sizer)
    requires ValidSpool(s) && 0 <= k && Standing(db, key, s.sourceId, k) && Fresh(db, s, k) && RowsAfter(s.rows, k) != []
    ensures var rest := RowsAfter(s.rows, k);
            var t := Tables.IngestEvent(db, key, rest[0].sequence, rest[0].event, sizeOf(rest[0].event), at);
            && (t.result.Ok? <==> rest[0].sequence == k + 1)
            && (t.result.Ok? ==> Standing(t.db, key, s.sourceId, k + 1) && Fresh(t.db, s, k + 1)
                                 && RowsAfter(s.rows, k + 1) == rest[1..])
  {
    hide ValidSpool, Sound, RowsAfter, Traced, Tables.IngestEvent, InsertEvent, Ascending;
    var rest := RowsAfter(s.rows, k);
    var row := rest[0];
    SoundOrder(s);
    AfterFirstRow(s.rows, k);
    SoundRow(s, row);
    assert row in rest;
    IngestBeyondCursor(db, key, row.sequence, row.event, sizeOf(row.event), at);
    if row.sequence == k + 1 {
      IngestMoves(db, key, row.sequence, row.event, sizeOf(row.event), at);
      FreshStays(db, key, s, k, row.event, sizeOf(row.event), at);
    }
  }

  lemma UnbrokenStep(rows: seq<SpoolRow>, k: int)
    requires rows != []
    ensures Unbroken(rows, k) <==> rows[0].sequence == k + 1 && Unbroken(rows[1..], k + 1)
  {
    if rows[0].sequence == k + 1 && Unbroken(rows[1..], k + 1) {
      forall i | 0 <= i < |rows| ensures rows[i].sequence == k + 1 + i {
        if i > 0 { assert rows[1..][i - 1] == rows[i]; }
      }
    }
  }

  /** A gap at the cursor is always new, and leaves what was untraced untraced. */
  lemma GapIngests(db: Db, key: string, s: SpoolState, k: int, through: int, at: int)
    requires ValidSpool(s) && 0 <= k < through && Standing(db, key, s.sourceId, k) && Fresh(db, s, k)
    ensures var t := Tables.RecordGap(db, key, k, through, at);
            && t.result.Ok? && t.result.value.Recorded? && Fresh(t.db, s, through)
  {
    hide ValidSpool, RowsAfter, Ascending, CursorsSound, TracesDistinct, RowIdsSound, OutboxSound, RaiseCheckpoint;
    SoundOrder(s);
    RowsAfterMembers(s.rows, k);
    RowsAfterMembers(s.rows, through);
    CursorIsCheckpoint(db, key, s.sourceId, k);
    assert !GapRecorded(db, s.sourceId, k + 1, through);
    var t := Tables.RecordGap(db, key, k, through, at);
    assert t.db.events == db.events && t.db.tombstones == db.tombstones;
  }

  lemma CursorIsCheckpoint(db: Db, key: string, id: Uuid, k: int)
    requires Standing(db, key, id, k)
    ensures Checkpoint(db, id) == k
  {
  }

  lemma HeadIngests(db: Db, key: string, s: SpoolState, k: int, at: int, sizeOf: Sizer)
    requires ValidSpool(s) && 0 <= k && Standing(db, key, s.sourceId, k) && Fresh(db, s, k) && Pending(s, k) != []
    ensures var f := Pending(s, k)[0];
            var p := Persist(db, key, 0, Known(f), at, sizeOf);
            p.result.Ok? && Fresh(p.db, s, NextCursor(f))
  {
    hide ValidSpool, RowsAfter, Fresh, Pending, Remaining, FrontGap, Sound, Tables.IngestEvent, Tables.RecordGap, InsertEvent, ValidFrame;
    PendingStep(s, k);
    var f := Pending(s, k)[0];
    if f.Gap? {
      GapIngests(db, key, s, k, f.lostThrough, at);
    } else {
      NextRowHeads(s, k);
      var row := RowsAfter(s.rows, k)[0];
      assert RowFrames(row, k)[0] == f;
      var stripped := RemoveTerminalActivationMetadata(f.event);
      HeadRowIsUntraced(db, s, k);
      IngestBeyondCursor(db, key, f.sequence, stripped, sizeOf(stripped), at);
      FreshStays(db, key, s, k, stripped, sizeOf(stripped), at);
    }
  }

  lemma HeadRowIsUntraced(db: Db, s: SpoolState, k: int)
    requires Fresh(db, s, k) && RowsAfter(s.rows, k) != []
    ensures var row := RowsAfter(s.rows, k)[0]; !Traced(db, s.sourceId, row.sequence, row.event.id)
  {
    hide RowsAfter, Traced;
    assert RowsAfter(s.rows, k)[0] in RowsAfter(s.rows, k);
  }

  lemma {:induction false} FreshDelivers(db: Db, key: string, s: SpoolState, k: int, at: int, sizeOf: Sizer)
    requires ValidSpool(s) && 0 <= k && Standing(db, key, s.sourceId, k) && Fresh(db, s, k)
    ensures DeliverAll(db, key, Pending(s, k), at, sizeOf).result.Ok?
    decreases |Pending(s, k)|
  {
    hide ValidSpool, Standing, Fresh, Pending, Persist, Heads;
    if Pending(s, k) != [] {
      var f := Pending(s, k)[0];
      PendingStep(s, k);
      HeadsBound(s, k, f);
      HeadIngests(db, key, s, k, at, sizeOf);
      PersistMoves(db, key, s, k, f, at, sizeOf);
      FreshDelivers(Persist(db, key, 0, Known(f), at, sizeOf).db, key, s, NextCursor(f), at, sizeOf);
    }
  }

  lemma DirectIngestsIffNoHole(db: Db, key: string, s: SpoolState, k: int, at: int, sizeOf: Sizer)
    requires ValidSpool(s) && 0 <= k <= s.highWatermark && Standing(db, key, s.sourceId, k) && Fresh(db, s, k)
    ensures IngestFrom(s, db, key, Snapshot(s.sourceId, Oldest(s), s.highWatermark), at, sizeOf).result.Ok? <==> NoHoleAhead(s, k)
  {
    hide ValidSpool, Sound, FrontGap, LostThrough, RowsAfter, IngestPages, IngestRows, Unbroken, Tables.RecordGap, Fresh;
    FrontGapIsLostThrough(s, k);
    FrontGapUnmoved(s, k);
    if FrontGap(s, k).0 == [] {
      PagesAreRows(s, db, key, k, at, sizeOf, IngestReport(0, 0, 0));
      RowsIngestIffUnbroken(db, key, s, k, at, sizeOf, IngestReport(0, 0, 0));
    } else {
      var through := FrontGap(s, k).1;
      GapHead(s, k);
      GapIngests(db, key, s, k, through, at);
      GapMoves(db, key, k, through, at);
      var t := Tables.RecordGap(db, key, k, through, at);
      PagesAreRows(s, t.db, key, through, at, sizeOf, IngestReport(0, 0, 1));
      RowsIngestIffUnbroken(t.db, key, s, through, at, sizeOf, IngestReport(0, 0, 1));
    }
  }

  lemma FreshIgnoresSources(a: Db, b: Db, s: SpoolState, k: int)
    requires b == a.(sources := b.sources) && Fresh(a, s, k)
    ensures Fresh(b, s, k)
  {
    hide RowsAfter;
  }

  /**
   * The exact condition: with nothing ahead delivered before, the two paths report the same outcome if and only if
   * the spool has no hole ahead of the cursor. The bridge declares a hole and goes on; direct ingestion stops at it.
   */
  lemma TwoPathsAgreeIffNoHole(db: Db, key: string, localLabel: string, s: SpoolState, startedAt: int, received: seq<Received>,
                               at: int, sizeOf: Sizer)
    requires ValidSpool(s) && Ready(db, key, s) && ValidLocalText(key) && ValidLocalText(localLabel)
    requires Frames(received) == QuietStream(s, OpeningCursor(db, key)) && ReceivedAt(METADATA_ASIDE, received, at)
    requires Fresh(db, s, OpeningCursor(db, key))
    ensures var remote := RunSession(db, key, localLabel, startedAt, received, sizeOf);
            var direct := IngestSpool(s, db, key, localLabel, at, sizeOf);
            && remote.result.Ok?
            && (direct.result.Ok? <==> NoHoleAhead(s, OpeningCursor(db, key)))
            && (SameOutcome(remote.result, direct.result) <==> NoHoleAhead(s, OpeningCursor(db, key)))
  {
    hide ValidSpool, Sound, DeliverAll, Shape, Pending, QuietStream, NoHoleAhead, Play, IngestFrom, KnownHighWatermark, Fresh, RunSession;
    SnapshotOfSound(s);
    var k := OpeningCursor(db, key);
    var base := Based(db, key, localLabel, s.sourceId);
    BasedIsStanding(db, key, localLabel, s);
    FreshIgnoresSources(db, base, s, k);
    SessionDelivers(METADATA_ASIDE, db, key, localLabel, s, startedAt, received, at, sizeOf);
    FreshDelivers(base, key, s, k, at, sizeOf);
    DirectIngestsIffNoHole(base, key, s, k, at, sizeOf);
    if NoHoleAhead(s, k) {
      TwoPathsAgree(db, key, localLabel, s, startedAt, received, at, sizeOf);
    }
  }

  lemma InnerHoleLiesAhead(e: Event, g: Event)
    requires e.sourceId == g.sourceId && e.sourceId.rfc4122 && e.id != g.id
    ensures ValidSpool(HoledInside(e, g)) && !NoHoleAhead(HoledInside(e, g), 0)
  {
    NextEmitLeavesHoleInside(e, g);
    var s := HoledInside(e, g);
    assert RowsAfter(s.rows, 0) == s.rows && FrontGap(s, 0).1 == 0;
    assert s.rows[1].sequence == 3;
  }

  lemma NeverSeenIsReady(key: string, s: SpoolState)
    ensures Ready(EMPTY_DATABASE, key, s) && OpeningCursor(EMPTY_DATABASE, key) == 0 && Fresh(EMPTY_DATABASE, s, 0)
  {
    hide Sound;
    EmptyIsSound();
  }

  /** The bridge session succeeds where direct ingestion fails. */
  ghost predicate PathsPart(db: Db, key: string, localLabel: string, s: SpoolState, startedAt: int, received: seq<Received>,
                            at: int, sizeOf: Sizer) {
    && ValidSpool(s) && Sound(db)
    && RunSession(db, key, localLabel, startedAt, received, sizeOf).result.Ok?
    && IngestSpool(s, db, key, localLabel, at, sizeOf).result.Err?
  }

  /**
   * The hole left by a clock that stepped back does separate the paths: into an empty desktop the bridge session
   * succeeds and direct ingestion fails.
   */
  lemma SteppedBackClockSeparatesPaths(e: Event, g: Event, key: string, localLabel: string, startedAt: int,
                                       received: seq<Received>, at: int, sizeOf: Sizer)
    requires e.sourceId == g.sourceId && e.sourceId.rfc4122 && e.id != g.id
    requires ValidLocalText(key) && ValidLocalText(localLabel)
    requires Frames(received) == QuietStream(HoledInside(e, g), 0) && ReceivedAt(METADATA_ASIDE, received, at)
    ensures Emission(HoledAtTail(e), g, 1, 100 * DAY) == Ok(HoledInside(e, g))
    ensures PathsPart(EMPTY_DATABASE, key, localLabel, HoledInside(e, g), startedAt, received, at, sizeOf)
  {
    hide ValidSpool, Ready, QuietStream, NoHoleAhead, Fresh, RunSession, Frames, Emission, IngestSpool, OpeningCursor, HoledInside;
    NextEmitLeavesHoleInside(e, g);
    InnerHoleLiesAhead(e, g);
    NeverSeenIsReady(key, HoledInside(e, g));
    TwoPathsAgreeIffNoHole(EMPTY_DATABASE, key, localLabel, HoledInside(e, g), startedAt, received, at, sizeOf);
  }
}
