/** A source reopened without its pin: the session starts at 0 and walks over what is already on record. */
module Reopening {
  import opened Base
  import opened Events
  import opened Protocol
  import opened Spools
  import opened Bridge
  import opened Tables
  import opened Runs
  import opened Replays
  import opened Erasures
  import opened Remote
  import opened Pipeline
  import opened Agreement

  /** Storage already holds what this frame says. */
  ghost predicate OnRecord(db: Db, id: Uuid, f: Frame) {
    match f
    case EventFrame(sequence, event) => Remembered(db, id, sequence, RemoveTerminalActivationMetadata(event))
    case Gap(requestedAfter, _, lostThrough) => GapRecorded(db, id, requestedAfter + 1, lostThrough)
    case _ => false
  }

  /** The frames repeat what is on record until they stand exactly at the known watermark. */
  ghost predicate Retraces(db: Db, id: Uuid, frames: seq<Frame>, k: int, mark: int)
    decreases |frames|
  {
    k == mark
    || (frames != [] && OnRecord(db, id, frames[0]) && Retraces(db, id, frames[1..], NextCursor(frames[0]), mark))
  }

  lemma {:induction false} RetracesIgnoresSources(a: Db, b: Db, id: Uuid, frames: seq<Frame>, k: int, mark: int)
    requires b == a.(sources := b.sources)
    ensures Retraces(a, id, frames, k, mark) <==> Retraces(b, id, frames, k, mark)
    decreases |frames|
  {
    if frames != [] {
      assert OnRecord(a, id, frames[0]) <==> OnRecord(b, id, frames[0]);
      RetracesIgnoresSources(a, b, id, frames[1..], NextCursor(frames[0]), mark);
    }
  }

  /** A consumer in the stream at k, whose storage already stands at the mark. */
  ghost predicate Lagging(c: Consumer, s: SpoolState, k: int, mark: int) {
    && c.handshake && c.validator.phase == Active && c.validator.sourceId == Some(s.sourceId)
    && 0 <= k <= mark && c.validator.cursor == k && Standing(c.db, c.key, s.sourceId, mark)
    && c.validator.requiredGap == LostThrough(k, Oldest(s), s.highWatermark)
  }

  /** Below the mark storage takes what is on record for a duplicate and refuses everything else. */
  lemma PersistBelowMark(db: Db, key: string, s: SpoolState, k: int, mark: int, f: Frame, at: int, sizeOf: Sizer)
    requires Standing(db, key, s.sourceId, mark) && 0 <= k < mark && Heads(s, k, f)
    ensures var p := Persist(db, key, k, Known(f), at, sizeOf);
            && p.db == db
            && (p.result.Ok? <==> OnRecord(db, s.sourceId, f))
            && (p.result.Ok? ==> NextCursor(f) <= mark && p.result.value.ingested == 0 && p.result.value.gaps == 0)
  {
    hide Sound, FrontGap, ValidFrame, Tables.IngestEvent, Tables.RecordGap, Remembered, GapRecorded;
    match f
    case EventFrame(sequence, event) =>
      var stripped := RemoveTerminalActivationMetadata(event);
      IngestMoves(db, key, sequence, stripped, sizeOf(stripped), at);
      DuplicateIffRemembered(db, key, sequence, stripped, sizeOf(stripped), at);
    case Gap(requestedAfter, _, lostThrough) =>
      GapMoves(db, key, requestedAfter, lostThrough, at);
      GapBelowMark(db, key, s.sourceId, requestedAfter, lostThrough, mark, at);
  }

  lemma GapBelowMark(db: Db, key: string, id: Uuid, requestedAfter: int, lostThrough: int, mark: int, at: int)
    requires Standing(db, key, id, mark) && 0 <= requestedAfter < lostThrough && requestedAfter < mark
    ensures RecordGap(db, key, requestedAfter, lostThrough, at).result.Ok? <==> GapRecorded(db, id, requestedAfter + 1, lostThrough)
    ensures GapRecorded(db, id, requestedAfter + 1, lostThrough) ==> lostThrough <= mark
  {
    hide TracesDistinct, RowIdsSound, OutboxSound;
  }

  lemma LaggingStep(c: Consumer, s: SpoolState, k: int, mark: int, at: int, sizeOf: Sizer)
    requires ValidSpool(s) && Lagging(c, s, k, mark) && k < mark && Agreement.Pending(s, k) != []
    ensures var f := Agreement.Pending(s, k)[0];
            var r := Consume(c, Known(f), at, sizeOf);
            && Agreement.Pending(s, NextCursor(f)) == Agreement.Pending(s, k)[1..]
            && r.after.db == c.db
            && (r.result.Ok? <==> OnRecord(c.db, s.sourceId, f))
            && (r.result.Ok? ==> Lagging(r.after, s, NextCursor(f), mark) && r.after.key == c.key
                                 && r.result.value.ingested == 0 && r.result.value.gaps == 0)
  {
    hide ValidSpool, Sound, Standing, Agreement.Pending, FrontGap, LostThrough, ValidFrame, Persist, OnRecord;
    PendingStep(s, k);
    var f := Agreement.Pending(s, k)[0];
    PersistBelowMark(c.db, c.key, s, k, mark, f, at, sizeOf);
    FrontGapIsLostThrough(s, k);
    FrontGapIsLostThrough(s, NextCursor(f));
    NoTermination(c.db, c.key, k, f, at, sizeOf);
  }

  lemma NoTermination(db: Db, key: string, k: int, f: Frame, at: int, sizeOf: Sizer)
    requires f.Gap? || f.EventFrame?
    ensures var p := Persist(db, key, k, Known(f), at, sizeOf); p.result.Ok? ==> p.result.value.termination.None?
  {
    hide Tables.IngestEvent, Tables.RecordGap;
  }

  /** The same error, or the same numbers of new events and gaps. */
  predicate SameDelivery(a: Result<Report, ConsumerError>, b: Result<Report, ConsumerError>) {
    if a.Err? || b.Err? then a == b else a.value.ingested == b.value.ingested && a.value.gaps == b.value.gaps
  }

  /** Walking over the known part leaves the rest to deliver, or stops without a trace at the first thing unknown. */
  lemma {:induction false} LaggingPlay(er: Erasure, c: Consumer, s: SpoolState, k: int, mark: int, received: seq<Received>,
                                       at: int, sizeOf: Sizer)
    requires ValidSpool(s) && Lagging(c, s, k, mark)
    requires Frames(received) == Agreement.Pending(s, k) && ReceivedAt(er, received, at)
    ensures var r := Play(c, received, sizeOf);
            if Retraces(c.db, s.sourceId, Agreement.Pending(s, k), k, mark) then
              var d := DeliverAll(c.db, c.key, Agreement.Pending(s, mark), at, sizeOf);
              Shape(er, r.after.db) == Shape(er, d.db) && SameDelivery(r.result, d.result)
            else r.after.db == c.db && (r.result.Ok? ==> r.result.value.ingested == 0 && r.result.value.gaps == 0)
    decreases |received|
  {
    hide ValidSpool, Standing, Agreement.Pending, Shape, Persist, Consume, LostThrough, OnRecord, DeliverAll;
    if k == mark {
      PlayDelivers(er, c, s, received, at, sizeOf);
    } else if received != [] {
      var f, t := received[0].frame, received[0].at;
      assert Frames(received)[0] == f && Frames(received)[1..] == Frames(received[1..]);
      assert received[0] in received;
      LaggingStep(c, s, k, mark, t, sizeOf);
      var r := Consume(c, Known(f), t, sizeOf);
      if r.result.Ok? {
        LaggingPlay(er, r.after, s, NextCursor(f), mark, received[1..], at, sizeOf);
      }
    }
  }

  /** The source carries no pin, and nobody else owns the spool's identity. */
  ghost predicate Unpinned(db: Db, key: string, s: SpoolState) {
    && Sound(db) && (key in db.sources ==> db.sources[key].pinned.None?)
    && !OwnedElsewhere(db, key, s.sourceId)
  }

  lemma HelloLags(db: Db, key: string, localLabel: string, s: SpoolState, startedAt: int, at: int, sizeOf: Sizer)
    requires ValidSpool(s) && Unpinned(db, key, s) && ValidLocalText(key) && ValidLocalText(localLabel)
    ensures var opening := OpenConsumer(db, key, localLabel, startedAt);
            && opening.Ok?
            && var r := Consume(opening.value, Known(HelloOf(s)), at, sizeOf);
            && r.result == Ok(ONE_FRAME) && r.after.key == key
            && r.after.db == Based(db, key, localLabel, s.sourceId)
            && Lagging(r.after, s, 0, KnownHighWatermark(db, s.sourceId))
  {
    hide Sound, ValidSpool, LostThrough, KnownHighWatermark, OwnedElsewhere, Tables.RegisterSource, OpeningCursor;
    UnpinnedIsBased(db, key, localLabel, s);
    SnapshotOfSound(s);
    SpoolIdentity(s);
  }

  lemma UnpinnedIsBased(db: Db, key: string, localLabel: string, s: SpoolState)
    requires Unpinned(db, key, s) && ValidLocalText(key) && ValidLocalText(localLabel)
    ensures var base, registered := Based(db, key, localLabel, s.sourceId), Tables.RegisterSource(db, key, localLabel);
            && registered.result.Ok? && key in registered.db.sources
            && registered.db.sources[key].cursor == 0 && registered.db.sources[key].pinned.None?
            && Tables.PinSource(registered.db, key, s.sourceId).result.Ok?
            && 0 <= KnownHighWatermark(db, s.sourceId)
            && Standing(base, key, s.sourceId, KnownHighWatermark(db, s.sourceId))
            && base == db.(sources := base.sources) && base.sources[key].localLabel == localLabel
  {
    hide Sound;
    var registered := Tables.RegisterSource(db, key, localLabel);
    PinnedCursorIsNatural(db, key, localLabel, s.sourceId);
    UnpinnedStandsAtZero(db);
    SameTraces(db, registered.db, s.sourceId);
  }

  /**
   * A source released and reopened: the session opens at 0 although the identity is known up to a watermark. If the
   * stream retraces what is on record up to exactly that watermark, the session delivers what a session resumed there
   * would deliver. Otherwise it delivers nothing; but it has pinned the source at the watermark, so that the next
   * session resumes there.
   */
  lemma ReopeningDeliversIfRetraced(er: Erasure, db: Db, key: string, localLabel: string, s: SpoolState, startedAt: int,
                                    received: seq<Received>, at: int, sizeOf: Sizer)
    requires ValidSpool(s) && Unpinned(db, key, s) && ValidLocalText(key) && ValidLocalText(localLabel)
    requires Frames(received) == QuietStream(s, 0) && ReceivedAt(er, received, at)
    ensures var mark, base := KnownHighWatermark(db, s.sourceId), Based(db, key, localLabel, s.sourceId);
            var e := RunSession(db, key, localLabel, startedAt, received, sizeOf);
            && Standing(base, key, s.sourceId, mark)
            && if Retraces(db, s.sourceId, Agreement.Pending(s, 0), 0, mark) then
                 var d := DeliverAll(base, key, Agreement.Pending(s, mark), at, sizeOf);
                 Shape(er, e.db) == Shape(er, d.db) && SameDelivery(e.result, d.result)
               else
                 && e.db == base
                 && (e.result.Ok? ==> e.result.value.ingested == 0 && e.result.value.gaps == 0)
                 && (mark <= s.highWatermark ==> Ready(e.db, key, s) && OpeningCursor(e.db, key) == mark)
  {
    hide ValidSpool, Unpinned, Based, Agreement.Pending, Consume, OpenConsumer, DeliverAll, Shape, QuietStream, HelloOf;
    hide OnRecord, KnownHighWatermark, Sound, LostThrough;
    QuietStreamIsHelloThenPending(s, 0);
    assert received[0].frame == Frames(received)[0] == HelloOf(s);
    assert Frames(received[1..]) == Frames(received)[1..] == Agreement.Pending(s, 0);
    HelloLags(db, key, localLabel, s, startedAt, received[0].at, sizeOf);
    UnpinnedIsBased(db, key, localLabel, s);
    var mark, base := KnownHighWatermark(db, s.sourceId), Based(db, key, localLabel, s.sourceId);
    RetracesIgnoresSources(db, base, s.sourceId, Agreement.Pending(s, 0), 0, mark);
    var c := OpenConsumer(db, key, localLabel, startedAt).value;
    var r := Consume(c, Known(HelloOf(s)), received[0].at, sizeOf);
    LaggingPlay(er, r.after, s, 0, mark, received[1..], at, sizeOf);
  }

  lemma BasedAgain(base: Db, key: string, localLabel: string, id: Uuid)
    requires key in base.sources && base.sources[key].pinned == Some(id) && base.sources[key].localLabel == localLabel
    ensures Based(base, key, localLabel, id) == base
  {
    hide KnownHighWatermark;
    RelabelSame(base, key, localLabel);
  }

  /** What the reopening session could not deliver, the next complete session does. */
  lemma NextSessionMakesUp(er: Erasure, db: Db, key: string, localLabel: string, s: SpoolState, first: Session,
                           second: Session, at: int, sizeOf: Sizer)
    requires ValidSpool(s) && Unpinned(db, key, s) && ValidLocalText(key) && ValidLocalText(localLabel)
    requires Frames(first.received) == QuietStream(s, 0) && ReceivedAt(er, first.received, at)
    requires var mark := KnownHighWatermark(db, s.sourceId);
             && mark <= s.highWatermark && !Retraces(db, s.sourceId, Agreement.Pending(s, 0), 0, mark)
             && Frames(second.received) == QuietStream(s, mark) && ReceivedAt(er, second.received, at)
    ensures var stopped := RunSession(db, key, localLabel, first.startedAt, first.received, sizeOf).db;
            var e := RunSession(stopped, key, localLabel, second.startedAt, second.received, sizeOf);
            var d := DeliverAll(Based(db, key, localLabel, s.sourceId), key,
                                Agreement.Pending(s, KnownHighWatermark(db, s.sourceId)), at, sizeOf);
            Shape(er, e.db) == Shape(er, d.db) && SameDelivery(e.result, d.result)
  {
    hide ValidSpool, Unpinned, Based, Agreement.Pending, RunSession, DeliverAll, Shape, QuietStream, Retraces, Ready;
    hide KnownHighWatermark, OpeningCursor;
    ReopeningDeliversIfRetraced(er, db, key, localLabel, s, first.startedAt, first.received, at, sizeOf);
    UnpinnedIsBased(db, key, localLabel, s);
    var base := Based(db, key, localLabel, s.sourceId);
    BasedAgain(base, key, localLabel, s.sourceId);
    SessionDelivers(er, base, key, localLabel, s, second.startedAt, second.received, at, sizeOf);
  }

  /** The same error, or the same numbers of new events and gaps, in the two paths' own terms. */
  predicate SameEffect(remote: Result<Report, ConsumerError>, direct: Result<IngestReport, PipelineError>) {
    match (remote, direct)
    case (Ok(a), Ok(b)) => a.ingested == b.ingested && a.gaps == b.gaps
    case (Err(FromDesktop(e)), Err(FromDatabase(f))) => e == f
    case _ => false
  }

  /** Direct ingestion starts from the pinned database, whether it pins it itself or finds it pinned. */
  lemma DirectStartsAtMark(db: Db, key: string, localLabel: string, s: SpoolState, at: int, sizeOf: Sizer)
    requires ValidSpool(s) && Unpinned(db, key, s) && ValidLocalText(key) && ValidLocalText(localLabel)
    ensures var base := Based(db, key, localLabel, s.sourceId);
            && Standing(base, key, s.sourceId, KnownHighWatermark(db, s.sourceId)) && 0 <= KnownHighWatermark(db, s.sourceId)
            && var direct := IngestFrom(s, base, key, Snapshot(s.sourceId, Oldest(s), s.highWatermark), at, sizeOf);
            && IngestSpool(s, db, key, localLabel, at, sizeOf) == direct
            && IngestSpool(s, base, key, localLabel, at, sizeOf) == direct
  {
    hide ValidSpool, Unpinned, KnownHighWatermark, IngestFrom, Sound, Tables.RegisterSource;
    SnapshotOfSound(s);
    UnpinnedIsBased(db, key, localLabel, s);
    RegisteredAlready(Based(db, key, localLabel, s.sourceId), key, localLabel);
    SoundBefore(db, key, s);
  }

  lemma RegisteredAlready(db: Db, key: string, localLabel: string)
    requires ValidLocalText(key) && ValidLocalText(localLabel)
    requires key in db.sources && db.sources[key].localLabel == localLabel
    ensures Tables.RegisterSource(db, key, localLabel).db == db && Tables.RegisterSource(db, key, localLabel).result.Ok?
  {
    RelabelSame(db, key, localLabel);
  }

  lemma SoundBefore(db: Db, key: string, s: SpoolState)
    requires Unpinned(db, key, s)
    ensures Sound(db)
  {
  }

  /**
   * Direct ingestion pins before it reads the cursor, so it always resumes at the watermark. A reopening session
   * that retraces agrees with it; one that does not leaves the pinned source where direct ingestion starts.
   */
  lemma ReopenedPathsAgreeIfRetraced(db: Db, key: string, localLabel: string, s: SpoolState, startedAt: int,
                                     received: seq<Received>, at: int, sizeOf: Sizer)
    requires ValidSpool(s) && Unpinned(db, key, s) && ValidLocalText(key) && ValidLocalText(localLabel)
    requires KnownHighWatermark(db, s.sourceId) <= s.highWatermark && NoHoleAhead(s, KnownHighWatermark(db, s.sourceId))
    requires Frames(received) == QuietStream(s, 0) && ReceivedAt(METADATA_ASIDE, received, at)
    ensures var remote := RunSession(db, key, localLabel, startedAt, received, sizeOf);
            var direct := IngestSpool(s, db, key, localLabel, at, sizeOf);
            if Retraces(db, s.sourceId, Agreement.Pending(s, 0), 0, KnownHighWatermark(db, s.sourceId)) then
              && Shape(METADATA_ASIDE, remote.db) == Shape(METADATA_ASIDE, direct.db) && Alike(METADATA_ASIDE, remote.db, direct.db)
              && SameEffect(remote.result, direct.result)
            else remote.db == Based(db, key, localLabel, s.sourceId)
  {
    hide ValidSpool, Agreement.Pending, RunSession, DeliverAll, Shape, QuietStream, Retraces, Ready, NoHoleAhead, Based;
    hide KnownHighWatermark, OpeningCursor, IngestFrom, IngestSpool, Unpinned, Alike;
    SoundBefore(db, key, s);
    SameShapeIffAlike(METADATA_ASIDE, RunSession(db, key, localLabel, startedAt, received, sizeOf).db,
                      IngestSpool(s, db, key, localLabel, at, sizeOf).db);
    DirectStartsAtMark(db, key, localLabel, s, at, sizeOf);
    ReopeningDeliversIfRetraced(METADATA_ASIDE, db, key, localLabel, s, startedAt, received, at, sizeOf);
    var mark, base := KnownHighWatermark(db, s.sourceId), Based(db, key, localLabel, s.sourceId);
    DirectDelivers(METADATA_ASIDE, base, key, s, mark, at, sizeOf);
  }

  /** A desktop that was told sequence 1 is lost and then released the source. */
  function ReleasedAtOne(key: string, localLabel: string, id: Uuid, at: int): Db {
    Tables.ReleaseSource(Tables.RecordGap(Based(EMPTY_DATABASE, key, localLabel, id), key, 0, 1, at).db, key).db
  }

  /** Reopened on a spool that has lost sequence 2 as well, the session stops at the gap it cannot place. */
  lemma ReopeningCanStop(key: string, localLabel: string, e: Event, at: int)
    requires ValidLocalText(key) && ValidLocalText(localLabel) && e.sourceId.rfc4122
    ensures var db := ReleasedAtOne(key, localLabel, e.sourceId, at);
            var s := SpoolState(e.sourceId, 3, [SpoolRow(3, e, 0, 1)], None);
            && ValidSpool(s) && Unpinned(db, key, s) && KnownHighWatermark(db, e.sourceId) == 1
            && !Retraces(db, s.sourceId, Agreement.Pending(s, 0), 0, 1) && Agreement.Pending(s, 1) != []
  {
    hide Sound;
    var s := SpoolState(e.sourceId, 3, [SpoolRow(3, e, 0, 1)], None);
    EmptyIsSound();
    UnpinnedIsBased(EMPTY_DATABASE, key, localLabel, s);
    var base := Based(EMPTY_DATABASE, key, localLabel, e.sourceId);
    RecordGapKeepsSound(base, key, 0, 1, at);
    var told := Tables.RecordGap(base, key, 0, 1, at).db;
    ReleaseKeepsSound(told, key);
    WatermarkIsCheckpoint(ReleasedAtOne(key, localLabel, e.sourceId, at), e.sourceId);
  }
}
