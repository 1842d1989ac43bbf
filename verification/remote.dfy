/** The desktop's receiving end of one bridge stream: validate, persist, then advance. */
module Remote {
  import opened Base
  import opened Events
  import opened Protocol
  import opened Framing
  import opened Tables
  import opened History
  import opened Dispatch
  import opened Runs
  import opened Desktop
  import opened Replays

  const STARTUP_TIMEOUT := 20 * 1000
  const STALE_TIMEOUT := 45 * 1000

  /** The length of an event's stored payload; serialisation is not part of this model. */
  type Sizer = Event -> nat

  datatype Disposition = Retry | UserActionRequired

  datatype Diagnostic = RemoteError(code: string, message: string) | UnexpectedEof | StartupTimedOut | Stale

  datatype Termination = Termination(disposition: Disposition, diagnostic: Diagnostic)

  datatype ConsumerError =
    | FromProtocol(protocol: ProtocolError)
    | FromDesktop(desktop: DesktopError)
    | CursorAhead(cursor: int, highWatermark: int)
    | UnexpectedReplayInsertion(sequence: int)

  datatype Report = Report(
    frames: nat, ingested: nat, duplicates: nat, gaps: nat, heartbeats: nat, unknownFrames: nat,
    termination: Option<Termination>)

  const EMPTY_REPORT := Report(0, 0, 0, 0, 0, 0, None)
  const ONE_FRAME := EMPTY_REPORT.(frames := 1)

  function Merge(a: Report, b: Report): Report {
    Report(a.frames + b.frames, a.ingested + b.ingested, a.duplicates + b.duplicates, a.gaps + b.gaps,
           a.heartbeats + b.heartbeats, a.unknownFrames + b.unknownFrames,
           if b.termination.Some? then b.termination else a.termination)
  }

  datatype Consumer = Consumer(
    db: Db,
    key: string,
    validator: Validator,
    handshake: bool,
    termination: Option<Termination>,
    lastFrameAt: int)

  /** One attempt to consume something: the state it leaves and what it reports. */
  datatype Consumed = Consumed(after: Consumer, result: Result<Report, ConsumerError>)

  /** What a frame does to the database, with the report it earns. */
  datatype Persisted = Persisted(db: Db, result: Result<Report, ConsumerError>)

  const KNOWN_REMOTE_ERRORS := map[
    "incompatible_protocol" := "The remote Aizu protocol is incompatible.",
    "spool_unavailable" := "The remote event spool is temporarily unavailable.",
    "incompatible_database" := "The remote Aizu database is incompatible.",
    "unsupported_storage" := "The remote event spool uses unsupported storage.",
    "spool_corrupt" := "The remote event spool failed an integrity check.",
    "cursor_ahead" := "The saved cursor is ahead of the remote event spool.",
    "source_identity_changed" := "The remote source identity changed.",
    "invalid_request" := "The remote bridge rejected the request.",
    "internal" := "The remote bridge stopped because of an internal error."]

  /** Only a known code survives, with our own words; the remote text never does. */
  function SafeRemoteError(code: string): (string, string) {
    if code in KNOWN_REMOTE_ERRORS then (code, KNOWN_REMOTE_ERRORS[code])
    else ("remote_error", "The remote bridge reported an error.")
  }

  function ClassifyRemoteError(code: string): Disposition {
    if code == "spool_unavailable" || code == "internal" then Retry else UserActionRequired
  }

  function TerminationOf(code: string): Termination {
    var (safe, message) := SafeRemoteError(code);
    Termination(ClassifyRemoteError(safe), RemoteError(safe, message))
  }

  function OpenConsumer(db: Db, key: string, localLabel: string, startedAt: int): Result<Consumer, ConsumerError> {
    var registered := RegisterSource(db, key, localLabel);
    if registered.result.Err? then Err(FromDesktop(registered.result.error))
    else
      var source := registered.db.sources[key];
      match NewValidator(PROTOCOL_VERSION, source.cursor, source.pinned)
      case Err(e) => Err(FromProtocol(e))
      case Ok(validator) => Ok(Consumer(registered.db, key, validator, false, None, startedAt))
  }

  /** At-least-once delivery: an old sequence is checked against durable data and never moves the cursor. */
  function AcceptReplay(c: Consumer, sequence: int, event: Event, receivedAt: int, sizeOf: Sizer): Consumed {
    if c.validator.sourceId.None? then Consumed(c, Err(FromProtocol(MissingStreamSource)))
    else if event.sourceId != c.validator.sourceId.value then
      Consumed(c, Err(FromProtocol(SourceIdentityMismatch(c.validator.sourceId.value, event.sourceId))))
    else
      var stripped := RemoveTerminalActivationMetadata(event);
      var t := Tables.IngestEvent(c.db, c.key, sequence, stripped, sizeOf(stripped), receivedAt);
      match t.result
      case Ok(Duplicate) => Consumed(c.(db := t.db, lastFrameAt := receivedAt), Ok(ONE_FRAME.(duplicates := 1)))
      case Ok(Inserted(_, _)) => Consumed(c.(db := t.db), Err(UnexpectedReplayInsertion(sequence)))
      case Err(e) => Consumed(c, Err(FromDesktop(e)))
  }

  /** The durable effect of a frame the validator would accept next. */
  function Persist(db: Db, key: string, cursor: int, parsed: Parsed, receivedAt: int, sizeOf: Sizer): Persisted {
    match parsed
    case Known(Hello(_, source, _, latest)) =>
      if cursor > latest then Persisted(db, Err(CursorAhead(cursor, latest)))
      else
        var t := Tables.PinSource(db, key, source);
        Persisted(t.db, if t.result.Err? then Err(FromDesktop(t.result.error)) else Ok(ONE_FRAME))
    case Known(EventFrame(sequence, event)) =>
      var stripped := RemoveTerminalActivationMetadata(event);
      var t := Tables.IngestEvent(db, key, sequence, stripped, sizeOf(stripped), receivedAt);
      Persisted(t.db,
                match t.result
                case Err(e) => Err(FromDesktop(e))
                case Ok(Inserted(_, _)) => Ok(ONE_FRAME.(ingested := 1))
                case Ok(Duplicate) => Ok(ONE_FRAME.(duplicates := 1)))
    case Known(Gap(requestedAfter, _, lostThrough)) =>
      var t := Tables.RecordGap(db, key, requestedAfter, lostThrough, receivedAt);
      Persisted(t.db,
                match t.result
                case Err(e) => Err(FromDesktop(e))
                case Ok(Recorded(_)) => Ok(ONE_FRAME.(gaps := 1))
                case Ok(DuplicateGap) => Ok(ONE_FRAME))
    case Known(Heartbeat) => Persisted(db, Ok(ONE_FRAME.(heartbeats := 1)))
    case Known(ErrorFrame(code, _)) => Persisted(db, Ok(ONE_FRAME.(termination := Some(TerminationOf(code)))))
    case Unknown(_) => Persisted(db, Ok(ONE_FRAME.(unknownFrames := 1)))
  }

  predicate IsReplay(c: Consumer, parsed: Parsed) {
    parsed.Known? && parsed.frame.EventFrame? && c.handshake && parsed.frame.sequence <= c.validator.cursor
  }

  function Consume(c: Consumer, parsed: Parsed, receivedAt: int, sizeOf: Sizer): Consumed {
    if IsReplay(c, parsed) then AcceptReplay(c, parsed.frame.sequence, parsed.frame.event, receivedAt, sizeOf)
    else
      match AcceptFrame(c.validator, parsed)
      case Err(e) => Consumed(c, Err(FromProtocol(e)))
      case Ok(candidate) =>
        var p := Persist(c.db, c.key, c.validator.cursor, parsed, receivedAt, sizeOf);
        if p.result.Err? then Consumed(c.(db := p.db), p.result)
        else
          Consumed(Consumer(p.db, c.key, candidate,
                            c.handshake || (parsed.Known? && parsed.frame.Hello?),
                            if p.result.value.termination.Some? then p.result.value.termination else c.termination,
                            receivedAt),
                   p.result)
  }

  // ---- The consumer is never ahead of storage ----

  /** Between two frames: either the handshake pinned the source, or nothing durable happened to it yet. */
  ghost predicate Aligned(c: Consumer) {
    && Sound(c.db) && c.key in c.db.sources && 0 <= c.validator.cursor
    && (if c.handshake
        then c.validator.sourceId.Some? && c.db.sources[c.key].pinned == c.validator.sourceId
             && c.validator.cursor <= c.db.sources[c.key].cursor
        else c.validator.phase != Active && c.db.sources[c.key].pinned == c.validator.pinned
             && c.validator.cursor == c.db.sources[c.key].cursor)
  }

  /** The in-memory cursor is the durable one. */
  ghost predicate Exact(c: Consumer) {
    c.key in c.db.sources && c.validator.cursor == c.db.sources[c.key].cursor
  }

  lemma OpenedIsAligned(db: Db, key: string, localLabel: string, startedAt: int)
    requires Sound(db)
    ensures match OpenConsumer(db, key, localLabel, startedAt)
            case Err(e) => e.FromDesktop? && e.desktop.InvalidLocalText?
            case Ok(c) => Aligned(c) && Exact(c) && c.key == key && !c.handshake
                          && c.validator == Validator(PROTOCOL_VERSION, c.db.sources[key].pinned, None,
                                                      c.db.sources[key].cursor, None, AwaitingHello)
  {
    RegisterKeepsSound(db, key, localLabel);
    var registered := RegisterSource(db, key, localLabel).db;
    CursorsAreNatural(registered);
  }

  lemma CursorsAreNatural(db: Db)
    requires Sound(db)
    ensures forall k :: k in db.sources ==> 0 <= db.sources[k].cursor
    ensures forall id :: 0 <= Checkpoint(db, id)
  {
  }

  /** A replay below the durable cursor never inserts, so the "unexpected insertion" error cannot happen. */
  lemma ReplayChangesNothing(c: Consumer, sequence: int, event: Event, receivedAt: int, sizeOf: Sizer)
    requires Aligned(c) && c.handshake && sequence <= c.validator.cursor
    ensures var r := AcceptReplay(c, sequence, event, receivedAt, sizeOf);
            && r.after == c.(lastFrameAt := r.after.lastFrameAt)
            && (r.result.Err? ==> r.after == c && !r.result.error.UnexpectedReplayInsertion?)
  {
    hide Sound, Tables.IngestEvent, InsertEvent;
    var stripped := RemoveTerminalActivationMetadata(event);
    IngestInsertsOnlyNext(c.db, c.key, sequence, stripped, sizeOf(stripped), receivedAt);
  }

  lemma HelloPins(c: Consumer, source: Uuid, receivedAt: int)
    requires Sound(c.db) && c.key in c.db.sources
    ensures var t := Tables.PinSource(c.db, c.key, source);
            && Sound(t.db) && (t.result.Err? ==> t.db == c.db)
            && (t.result.Ok? ==> c.key in t.db.sources && t.db.sources[c.key].pinned == Some(source)
                                 && t.db.sources[c.key].cursor >= c.db.sources[c.key].cursor)
            && (t.result.Ok? && c.db.sources[c.key].pinned.Some? ==> t.db == c.db)
  {
    hide Sound, KnownHighWatermark;
    if !OwnedElsewhere(c.db, c.key, source) { AdoptKeepsSound(c.db, c.key, source); }
    if c.db.sources[c.key].pinned.None? { PinningNeverMovesBack(c.db, c.key, source); }
  }

  lemma PinningNeverMovesBack(db: Db, key: string, source: Uuid)
    requires Sound(db) && key in db.sources && db.sources[key].pinned.None?
    ensures 0 == db.sources[key].cursor <= KnownHighWatermark(db, source)
  {
    WatermarkIsCheckpoint(db, source);
    CursorsAreNatural(db);
  }

  /** One frame: an error changes nothing, alignment survives, and a consumer opened on a pinned source stays exact. */
  lemma ConsumeKeepsAligned(c: Consumer, parsed: Parsed, receivedAt: int, sizeOf: Sizer)
    requires Aligned(c)
    ensures var r := Consume(c, parsed, receivedAt, sizeOf);
            && Aligned(r.after) && r.after.key == c.key && r.after.validator.pinned == c.validator.pinned
            && (r.result.Err? ==> r.after == c && !r.result.error.UnexpectedReplayInsertion?)
            && (Exact(c) && c.validator.pinned.Some? ==> Exact(r.after))
            && (c.handshake && Exact(c) ==> Exact(r.after))
  {
    hide Sound, Persist, AcceptReplay;
    if IsReplay(c, parsed) {
      ReplayChangesNothing(c, parsed.frame.sequence, parsed.frame.event, receivedAt, sizeOf);
    } else if AcceptFrame(c.validator, parsed).Ok? {
      PersistKeepsAligned(c, parsed, receivedAt, sizeOf);
    }
  }

  /** An accepted event moves the durable cursor along, unless storage is already past it. */
  lemma IngestMoves(db: Db, key: string, sequence: int, event: Event, bytes: nat, receivedAt: int)
    requires Sound(db) && key in db.sources
    ensures var t := Tables.IngestEvent(db, key, sequence, event, bytes, receivedAt);
            && Sound(t.db) && (t.result.Err? ==> t.db == db)
            && key in t.db.sources && t.db.sources[key] == db.sources[key].(cursor := t.db.sources[key].cursor)
            && (t.result == Ok(Duplicate) ==> t.db == db && sequence <= db.sources[key].cursor)
            && (t.result.Ok? && t.result.value.Inserted? ==>
                  db.sources[key].cursor == sequence - 1 && t.db.sources[key].cursor == sequence)
  {
    hide Sound, Tables.IngestEvent, Traced;
    IngestKeepsSound(db, key, sequence, event, bytes, receivedAt);
    IngestInsertsOnlyNext(db, key, sequence, event, bytes, receivedAt);
    if Tables.IngestEvent(db, key, sequence, event, bytes, receivedAt).result == Ok(Duplicate) {
      DuplicateIsBehindCursor(db, key, sequence, event, bytes, receivedAt);
    }
  }

  lemma GapMoves(db: Db, key: string, requestedAfter: int, lostThrough: int, receivedAt: int)
    requires Sound(db) && key in db.sources
    ensures var t := Tables.RecordGap(db, key, requestedAfter, lostThrough, receivedAt);
            && Sound(t.db) && (t.result.Err? ==> t.db == db)
            && key in t.db.sources && t.db.sources[key] == db.sources[key].(cursor := t.db.sources[key].cursor)
            && (t.result == Ok(DuplicateGap) ==> t.db == db && lostThrough <= db.sources[key].cursor)
            && (t.result.Ok? && t.result.value.Recorded? ==>
                  db.sources[key].cursor == requestedAfter && t.db.sources[key].cursor == lostThrough)
  {
    hide Sound;
    RecordGapKeepsSound(db, key, requestedAfter, lostThrough, receivedAt);
  }

  lemma PersistKeepsAligned(c: Consumer, parsed: Parsed, receivedAt: int, sizeOf: Sizer)
    requires Aligned(c)
    requires !IsReplay(c, parsed) && AcceptFrame(c.validator, parsed).Ok?
    ensures var p := Persist(c.db, c.key, c.validator.cursor, parsed, receivedAt, sizeOf);
            && (p.result.Err? ==> p.db == c.db && !p.result.error.UnexpectedReplayInsertion?)
            && var r := Consume(c, parsed, receivedAt, sizeOf);
            && Aligned(r.after)
            && r.after.validator.pinned == c.validator.pinned
            && (Exact(c) && c.validator.pinned.Some? ==> Exact(r.after))
            && (c.handshake && Exact(c) ==> Exact(r.after))
  {
    hide Sound, Tables.IngestEvent, Tables.RecordGap, Tables.PinSource, AcceptReplay;
    match parsed
    case Known(Hello(_, source, _, _)) => HelloPins(c, source, receivedAt);
    case Known(EventFrame(sequence, event)) =>
      var stripped := RemoveTerminalActivationMetadata(event);
      IngestMoves(c.db, c.key, sequence, stripped, sizeOf(stripped), receivedAt);
    case Known(Gap(requestedAfter, _, lostThrough)) =>
      GapMoves(c.db, c.key, requestedAfter, lostThrough, receivedAt);
    case _ =>
  }

  /** What can reach a live consumer: a frame, or a database operation that does not name its source. */
  datatype Input = Arrived(parsed: Parsed, receivedAt: int) | Elsewhere(op: Op)

  predicate Names(op: Op, key: string) {
    match op
    case Register(k, _) => k == key
    case Pin(k, _) => k == key
    case Replace(k, _) => k == key
    case Release(k) => k == key
    case Ingest(k, _, _, _, _) => k == key
    case DeclareGap(k, _, _, _) => k == key
    case _ => false
  }

  function Advance(c: Consumer, input: Input, sizeOf: Sizer): Consumer {
    match input
    case Arrived(parsed, receivedAt) => Consume(c, parsed, receivedAt, sizeOf).after
    case Elsewhere(op) => c.(db := Apply(c.db, op))
  }

  function Live(c: Consumer, inputs: seq<Input>, sizeOf: Sizer): Consumer {
    if inputs == [] then c else Advance(Live(c, inputs[..|inputs| - 1], sizeOf), inputs[|inputs| - 1], sizeOf)
  }

  lemma OtherOpsLeaveSourceAlone(db: Db, op: Op, key: string)
    requires Sound(db) && !Names(op, key) && key in db.sources
    ensures var after := Apply(db, op); key in after.sources && after.sources[key] == db.sources[key]
  {
    hide Sound, KnownHighWatermark, MatchingEvents, GapRecorded, MaintainHistory, DispatchOutbox;
    match op
    case Maintain(historyNow, tombstoneNow) => MaintenanceIsSafe(db, historyNow, tombstoneNow);
    case DispatchRound(round) => DispatchLeavesSources(db, round);
    case _ =>
  }

  lemma DispatchLeavesSources(db: Db, round: Round)
    ensures DispatchOutbox(db, round).sources == db.sources
  {
  }

  lemma {:induction false} LiveStaysAligned(start: Consumer, inputs: seq<Input>, sizeOf: Sizer)
    requires Aligned(start) && Exact(start) && !start.handshake
    requires forall i | 0 <= i < |inputs| && inputs[i].Elsewhere? :: !Names(inputs[i].op, start.key)
    ensures var c := Live(start, inputs, sizeOf);
            && Aligned(c) && c.key == start.key && c.validator.pinned == start.validator.pinned
            && (start.validator.pinned.Some? ==> Exact(c))
  {
    hide Sound, Consume, Apply;
    if inputs != [] {
      var m := |inputs| - 1;
      LiveStaysAligned(start, inputs[..m], sizeOf);
      var before := Live(start, inputs[..m], sizeOf);
      match inputs[m]
      case Arrived(parsed, at) => ConsumeKeepsAligned(before, parsed, at, sizeOf);
      case Elsewhere(op) =>
        OtherOpsLeaveSourceAlone(before.db, op, before.key);
        EveryOpKeepsSound(before.db, op);
    }
  }

  /**
   * Over a whole session from its opening, with other sources, dispatch and maintenance interleaved: the consumer is
   * never ahead of storage, and one opened on a pinned source is always level with it. A refused frame changes
   * nothing, and UnexpectedReplayInsertion never occurs.
   */
  lemma ConsumerIsNeverAhead(db: Db, key: string, localLabel: string, startedAt: int, inputs: seq<Input>, next: Parsed,
                             receivedAt: int, sizeOf: Sizer)
    requires Sound(db) && OpenConsumer(db, key, localLabel, startedAt).Ok?
    requires forall i | 0 <= i < |inputs| && inputs[i].Elsewhere? :: !Names(inputs[i].op, key)
    ensures var start := OpenConsumer(db, key, localLabel, startedAt).value;
            var c := Live(start, inputs, sizeOf);
            && key in c.db.sources && c.validator.cursor <= c.db.sources[key].cursor
            && (start.validator.pinned.Some? ==> c.validator.cursor == c.db.sources[key].cursor)
            && var r := Consume(c, next, receivedAt, sizeOf);
            r.result.Err? ==> r.after == c && !r.result.error.UnexpectedReplayInsertion?
  {
    hide Sound, Consume, Live, OpenConsumer;
    OpenedIsAligned(db, key, localLabel, startedAt);
    var start := OpenConsumer(db, key, localLabel, startedAt).value;
    LiveStaysAligned(start, inputs, sizeOf);
    ConsumeKeepsAligned(Live(start, inputs, sizeOf), next, receivedAt, sizeOf);
  }

  // ---- What an accepted frame leaves behind ----

  /** The error codes a remote may keep, and those after which the desktop simply tries again. */
  const KEPT_CODES := {
    "incompatible_protocol", "spool_unavailable", "incompatible_database", "unsupported_storage", "spool_corrupt",
    "cursor_ahead", "source_identity_changed", "invalid_request", "internal"
  }

  /** A remote error ends the stream with a code of ours and never with the remote's own words. */
  lemma RemoteErrorsAreOurs(code: string)
    ensures var t := TerminationOf(code);
            && t.diagnostic.RemoteError?
            && t.diagnostic.code == (if code in KEPT_CODES then code else "remote_error")
            && (t.disposition.Retry? <==> code == "spool_unavailable" || code == "internal")
            && (code !in KEPT_CODES ==> t == TerminationOf("remote_error"))
  {
    assert KNOWN_REMOTE_ERRORS.Keys == KEPT_CODES;
  }

  /** Exactly this delivery was added, without the activation data, or nothing was. */
  ghost predicate StoredOrKnown(c: Consumer, sequence: int, event: Event, receivedAt: int, sizeOf: Sizer, after: Consumer, report: Report) {
    if report.ingested == 0 then after.db == c.db && report.duplicates == 1
    else
      && report.ingested == 1 && report.duplicates == 0 && |after.db.events| == |c.db.events| + 1
      && after.db.events[..|c.db.events|] == c.db.events
      && var row := after.db.events[|c.db.events|];
      && row.sequence == sequence && StrippedOf(row.event, event) && row.receivedAt == receivedAt
      && row.bytes == sizeOf(row.event) && row.key == c.key
  }

  ghost predicate DeclaredOrKnown(c: Consumer, requestedAfter: int, lostThrough: int, receivedAt: int, after: Consumer, report: Report) {
    if report.gaps == 0 then after.db == c.db
    else
      && report.gaps == 1 && |after.db.gaps| == |c.db.gaps| + 1 && after.db.gaps[..|c.db.gaps|] == c.db.gaps
      && var row := after.db.gaps[|c.db.gaps|];
      && row.lostFrom == requestedAfter + 1 && row.lostThrough == lostThrough && row.receivedAt == receivedAt && row.key == c.key
  }

  ghost predicate NotedIn(c: Consumer, parsed: Parsed, receivedAt: int, sizeOf: Sizer, after: Consumer, report: Report) {
    && report.frames == 1
    && (report.heartbeats == if parsed == Known(Heartbeat) then 1 else 0)
    && (report.unknownFrames == if parsed.Unknown? then 1 else 0)
    && (!(parsed.Known? && parsed.frame.EventFrame?) ==> report.ingested == 0 && report.duplicates == 0)
    && (!(parsed.Known? && parsed.frame.Gap?) ==> report.gaps == 0)
    && report.termination == (if parsed.Known? && parsed.frame.ErrorFrame? then Some(TerminationOf(parsed.frame.code)) else None)
    && after.key == c.key && after.lastFrameAt == receivedAt
    && (after.handshake <==> c.handshake || (parsed.Known? && parsed.frame.Hello?))
    && after.termination == (if report.termination.Some? then report.termination else c.termination)
    && match parsed
       case Known(Hello(_, source, _, latest)) =>
         && c.validator.cursor <= latest && c.key in after.db.sources && after.db.sources[c.key].pinned == Some(source)
         && after.db == c.db.(sources := after.db.sources)
       case Known(EventFrame(sequence, event)) => StoredOrKnown(c, sequence, event, receivedAt, sizeOf, after, report)
       case Known(Gap(requestedAfter, _, lostThrough)) => DeclaredOrKnown(c, requestedAfter, lostThrough, receivedAt, after, report)
       case _ => after.db == c.db
  }

  /** Where the stream cursor stands afterwards: a repeated old event leaves it, anything else moves it as the protocol says. */
  ghost function ValidatorAfter(c: Consumer, parsed: Parsed): Validator {
    if parsed.Unknown? || (parsed.frame.EventFrame? && c.handshake && parsed.frame.sequence <= c.validator.cursor) then c.validator
    else Moved(c.validator, parsed.frame)
  }

  /** An accepted frame renews the clock of the stream, is counted once, and leaves exactly its own trace in storage. */
  lemma AcceptedFrameIsNoted(c: Consumer, parsed: Parsed, receivedAt: int, sizeOf: Sizer)
    requires Aligned(c) && Consume(c, parsed, receivedAt, sizeOf).result.Ok?
    ensures var r := Consume(c, parsed, receivedAt, sizeOf);
            NotedIn(c, parsed, receivedAt, sizeOf, r.after, r.result.value) && r.after.validator == ValidatorAfter(c, parsed)
  {
    hide Sound, Tables.IngestEvent, Tables.RecordGap, ValidFrame, TerminationOf, WellFormed, Expected, StoredOrKnown, DeclaredOrKnown;
    match parsed
    case Known(EventFrame(sequence, event)) =>
      EventIsStored(c, sequence, event, receivedAt, sizeOf);
      AcceptedExactly(c.validator, parsed.frame);
    case Known(Gap(requestedAfter, _, lostThrough)) =>
      GapIsStored(c, requestedAfter, lostThrough, receivedAt, sizeOf);
      AcceptedExactly(c.validator, parsed.frame);
    case Known(frame) => AcceptedExactly(c.validator, frame);
    case Unknown(frameType) => UnknownIsPassedOver(c.validator, frameType);
  }

  lemma EventIsStored(c: Consumer, sequence: int, event: Event, receivedAt: int, sizeOf: Sizer)
    requires Aligned(c) && Consume(c, Known(EventFrame(sequence, event)), receivedAt, sizeOf).result.Ok?
    ensures var r := Consume(c, Known(EventFrame(sequence, event)), receivedAt, sizeOf);
            StoredOrKnown(c, sequence, event, receivedAt, sizeOf, r.after, r.result.value)
  {
    hide Sound, Tables.IngestEvent, AcceptFrame, RemoveTerminalActivationMetadata, Queued, StrippedOf;
    RemovalStrips(event);
    var stripped := RemoveTerminalActivationMetadata(event);
    IngestInsertsOnlyNext(c.db, c.key, sequence, stripped, sizeOf(stripped), receivedAt);
    var t := Tables.IngestEvent(c.db, c.key, sequence, stripped, sizeOf(stripped), receivedAt);
    if t.result.Ok? && t.result.value.Inserted? {
      AcceptedDeliveryIsQueued(c.db, c.key, sequence, stripped, sizeOf(stripped), receivedAt);
      QueuedRow(c.db, c.key, sequence, stripped, sizeOf(stripped), receivedAt, t.db);
    }
  }

  lemma QueuedRow(db: Db, key: string, sequence: int, event: Event, bytes: nat, receivedAt: int, after: Db)
    requires |after.events| > 0 && |after.outbox| > 0
    requires Queued(db, key, sequence, event, bytes, receivedAt, after, after.events[|after.events| - 1], after.outbox[|after.outbox| - 1])
    ensures |after.events| == |db.events| + 1 && after.events[..|db.events|] == db.events
    ensures var row := after.events[|db.events|];
            row.sequence == sequence && row.event == event && row.receivedAt == receivedAt && row.bytes == bytes && row.key == key
  {
    hide InWindow;
  }

  lemma GapIsStored(c: Consumer, requestedAfter: int, lostThrough: int, receivedAt: int, sizeOf: Sizer)
    requires Aligned(c)
    ensures forall oldest :: var r := Consume(c, Known(Gap(requestedAfter, oldest, lostThrough)), receivedAt, sizeOf);
              r.result.Ok? ==> DeclaredOrKnown(c, requestedAfter, lostThrough, receivedAt, r.after, r.result.value)
  {
    hide Sound, AcceptFrame;
    GapMoves(c.db, c.key, requestedAfter, lostThrough, receivedAt);
  }

  /** A remote whose log ends before our cursor is refused, and nothing changes. */
  lemma RewoundRemoteIsRefused(c: Consumer, source: Uuid, oldest: Option<int>, latest: int, receivedAt: int, sizeOf: Sizer)
    requires c.validator.phase == AwaitingHello && c.validator.cursor > latest
    requires AcceptFrame(c.validator, Known(Hello(c.validator.expectedProtocol, source, oldest, latest))).Ok?
    ensures Consume(c, Known(Hello(c.validator.expectedProtocol, source, oldest, latest)), receivedAt, sizeOf)
         == Consumed(c, Err(CursorAhead(c.validator.cursor, latest)))
  {
    hide ValidFrame;
  }

  /** An old event is taken exactly when that delivery is on record, activation key aside, and then changes the stream clock alone. */
  lemma OldEventIsChecked(c: Consumer, sequence: int, event: Event, receivedAt: int, sizeOf: Sizer)
    requires Aligned(c) && c.handshake && 0 < sequence <= c.validator.cursor && c.validator.sourceId == Some(event.sourceId)
    ensures var r := Consume(c, Known(EventFrame(sequence, event)), receivedAt, sizeOf);
            if Remembered(c.db, event.sourceId, sequence, RemoveTerminalActivationMetadata(event))
            then r == Consumed(c.(lastFrameAt := receivedAt), Ok(ONE_FRAME.(duplicates := 1)))
            else r.after == c && r.result.Err? && r.result.error.FromDesktop?
  {
    hide Sound, AcceptFrame, Tables.IngestEvent, Remembered, InsertEvent;
    var stripped := RemoveTerminalActivationMetadata(event);
    ReplayChangesNothing(c, sequence, event, receivedAt, sizeOf);
    DuplicateIffRemembered(c.db, c.key, sequence, stripped, sizeOf(stripped), receivedAt);
    IngestMoves(c.db, c.key, sequence, stripped, sizeOf(stripped), receivedAt);
  }

  /** An old event that names another source is a breach of the stream, not a replay. */
  lemma ForeignReplayIsRefused(c: Consumer, sequence: int, event: Event, receivedAt: int, sizeOf: Sizer)
    requires Aligned(c) && c.handshake && sequence <= c.validator.cursor && c.validator.sourceId != Some(event.sourceId)
    ensures Consume(c, Known(EventFrame(sequence, event)), receivedAt, sizeOf)
         == Consumed(c, Err(FromProtocol(SourceIdentityMismatch(c.validator.sourceId.value, event.sourceId))))
  {
    hide Sound, AcceptFrame, Tables.IngestEvent;
  }

  // ---- Bytes in, frames consumed ----

  function ConsumeAll(c: Consumer, frames: seq<Parsed>, receivedAt: int, sizeOf: Sizer): Consumed {
    if frames == [] then Consumed(c, Ok(EMPTY_REPORT))
    else
      var before := ConsumeAll(c, frames[..|frames| - 1], receivedAt, sizeOf);
      if before.result.Err? then before
      else
        var next := Consume(before.after, frames[|frames| - 1], receivedAt, sizeOf);
        if next.result.Err? then next else Consumed(next.after, Ok(Merge(before.result.value, next.result.value)))
  }

  datatype Feed = Feed(consumer: Consumer, buffer: Bytes, result: Result<Report, ConsumerError>)

  /** One byte of standard output: at most one frame completes, and it is persisted before the next byte. */
  function FeedByte(json: JsonReader, f: Feed, byte: Byte, receivedAt: int, sizeOf: Sizer): Feed {
    if f.result.Err? then f
    else
      var decoded := Decode(json, f.buffer, [byte]);
      match decoded.frames
      case Err(e) => f.(buffer := decoded.buffer, result := Err(FromProtocol(e)))
      case Ok(frames) =>
        var r := ConsumeAll(f.consumer, frames, receivedAt, sizeOf);
        Feed(r.after, decoded.buffer,
             if r.result.Err? then r.result else Ok(Merge(f.result.value, r.result.value)))
  }

  function FeedChunk(json: JsonReader, f: Feed, chunk: Bytes, receivedAt: int, sizeOf: Sizer): Feed {
    if chunk == [] then f
    else FeedByte(json, FeedChunk(json, f, chunk[..|chunk| - 1], receivedAt, sizeOf), chunk[|chunk| - 1], receivedAt, sizeOf)
  }

  lemma DecodeOneMore(json: JsonReader, buffer: Bytes, chunk: Bytes, byte: Byte)
    ensures var first, one := Decode(json, buffer, chunk), Decode(json, Decode(json, buffer, chunk).buffer, [byte]);
            && (one.frames.Ok? ==> |one.frames.value| <= 1)
            && Decode(json, buffer, chunk + [byte])
               == if first.frames.Err? then first
                  else if one.frames.Err? then one
                  else Decoded(Ok(first.frames.value + one.frames.value), one.buffer)
  {
    var first := Decode(json, buffer, chunk);
    DecodeSplits(json, buffer, chunk, [byte]);
    assert [byte][..0] == [];
    assert Decode(json, first.buffer, [byte][..0]) == Decoded(Ok([]), first.buffer);
  }

  /**
   * Feeding a chunk byte by byte consumes exactly the frames the decoder finds in it, in order; a chunk the decoder
   * refuses, or one with a frame the consumer refuses, is reported as an error.
   */
  lemma {:induction false} FeedConsumesDecodedFrames(json: JsonReader, c: Consumer, buffer: Bytes, chunk: Bytes, receivedAt: int, sizeOf: Sizer)
    ensures var fed := FeedChunk(json, Feed(c, buffer, Ok(EMPTY_REPORT)), chunk, receivedAt, sizeOf);
            var decoded := Decode(json, buffer, chunk);
            if decoded.frames.Err? then fed.result.Err?
            else
              var r := ConsumeAll(c, decoded.frames.value, receivedAt, sizeOf);
              fed.consumer == r.after && fed.result == r.result && (r.result.Ok? ==> fed.buffer == decoded.buffer)
  {
    hide Consume, Decode;
    if chunk == [] {
      DecodeNothing(json, buffer);
    } else {
      var m := |chunk| - 1;
      FeedConsumesDecodedFrames(json, c, buffer, chunk[..m], receivedAt, sizeOf);
      DecodeOneMore(json, buffer, chunk[..m], chunk[m]);
      assert chunk[..m] + [chunk[m]] == chunk;
      var first := Decode(json, buffer, chunk[..m]);
      if first.frames.Ok? {
        var one := Decode(json, first.buffer, [chunk[m]]);
        if one.frames.Ok? {
          ConsumeOneMore(c, first.frames.value, one.frames.value, receivedAt, sizeOf);
        }
      }
    }
  }

  lemma DecodeNothing(json: JsonReader, buffer: Bytes)
    ensures Decode(json, buffer, []) == Decoded(Ok([]), buffer)
  {
  }

  lemma ConsumeOneMore(c: Consumer, frames: seq<Parsed>, last: seq<Parsed>, receivedAt: int, sizeOf: Sizer)
    requires |last| <= 1
    ensures var before := ConsumeAll(c, frames, receivedAt, sizeOf);
            ConsumeAll(c, frames + last, receivedAt, sizeOf)
            == if before.result.Err? then before
               else
                 var next := ConsumeAll(before.after, last, receivedAt, sizeOf);
                 if next.result.Err? then next else Consumed(next.after, Ok(Merge(before.result.value, next.result.value)))
  {
    hide Consume, Merge;
    var before := ConsumeAll(c, frames, receivedAt, sizeOf);
    if last == [] {
      assert frames + last == frames;
      MergeEmpty(before.result);
    } else {
      assert (frames + last)[..|frames|] == frames;
      ConsumeSingle(before.after, last, receivedAt, sizeOf);
    }
  }

  lemma MergeEmpty(result: Result<Report, ConsumerError>)
    ensures result.Ok? ==> Merge(EMPTY_REPORT, result.value) == result.value && Merge(result.value, EMPTY_REPORT) == result.value
  {
  }

  lemma ConsumeSingle(c: Consumer, frames: seq<Parsed>, receivedAt: int, sizeOf: Sizer)
    requires |frames| == 1
    ensures ConsumeAll(c, frames, receivedAt, sizeOf) == Consume(c, frames[0], receivedAt, sizeOf)
  {
    hide Consume, Merge;
    assert frames[..0] == [];
    assert ConsumeAll(c, frames[..0], receivedAt, sizeOf) == Consumed(c, Ok(EMPTY_REPORT));
    MergeEmpty(Consume(c, frames[0], receivedAt, sizeOf).result);
  }

  class RemoteBridgeConsumer {
    const desktop: DesktopState
    const key: string
    const startedAt: int
    const sizeOf: Sizer
    const decoder: FrameDecoder
    var validator: BridgeStreamValidator
    var handshake: bool
    var termination: Option<Termination>
    var lastFrameAt: int

    function State(): Consumer
      reads this, desktop, validator
    {
      Consumer(desktop.Contents(), key, validator.State(), handshake, termination, lastFrameAt)
    }

    constructor (desktop: DesktopState, key: string, validator: BridgeStreamValidator, json: JsonReader, startedAt: int, sizeOf: Sizer)
      ensures State() == Consumer(desktop.Contents(), key, validator.State(), false, None, startedAt)
      ensures this.desktop == desktop && this.validator == validator && this.sizeOf == sizeOf && this.startedAt == startedAt
      ensures fresh(decoder) && decoder.json == json && decoder.buffer == []
    {
      this.desktop, this.key, this.startedAt, this.sizeOf := desktop, key, startedAt, sizeOf;
      this.validator, handshake, termination, lastFrameAt := validator, false, None, startedAt;
      this.decoder := new FrameDecoder(json);
    }

    static method Open(desktop: DesktopState, key: string, localLabel: string, json: JsonReader, startedAt: int, sizeOf: Sizer)
      returns (result: Result<RemoteBridgeConsumer, ConsumerError>)
      modifies desktop`sources
      ensures match OpenConsumer(old(desktop.Contents()), key, localLabel, startedAt)
              case Err(e) => result == Err(e)
              case Ok(c) =>
                && result.Ok? && fresh(result.value) && result.value.desktop == desktop && result.value.sizeOf == sizeOf
                && fresh(result.value.validator) && fresh(result.value.decoder)
                && result.value.decoder.json == json && result.value.decoder.buffer == []
                && result.value.State() == c
      ensures result.Ok? ==>
                && result.value.startedAt == startedAt && result.value.lastFrameAt == startedAt
                && !result.value.handshake && result.value.termination.None? && result.value.key == key
                && result.value.validator.expectedProtocol == 1 && result.value.validator.requiredGap.None?
                && key in desktop.sources && result.value.validator.cursor == desktop.sources[key].cursor
                && result.value.validator.pinned == desktop.sources[key].pinned
    {
      var registered := desktop.RegisterSource(key, localLabel);
      if registered.Err? { return Err(FromDesktop(registered.error)); }
      var source := desktop.FindSource(key);
      var created := NewValidator(PROTOCOL_VERSION, source.value.cursor, source.value.pinned);
      if created.Err? { return Err(FromProtocol(created.error)); }
      var validator := new BridgeStreamValidator.Of(created.value);
      var consumer := new RemoteBridgeConsumer(desktop, key, validator, json, startedAt, sizeOf);
      return Ok(consumer);
    }

    method AcceptFrame(parsed: Parsed, receivedAt: int) returns (result: Result<Report, ConsumerError>)
      modifies this, desktop
      ensures validator == old(validator) || fresh(validator)
      ensures Consumed(State(), result) == Consume(old(State()), parsed, receivedAt, sizeOf)
      ensures Aligned(old(State())) && result.Ok? ==>
                && NotedIn(old(State()), parsed, receivedAt, sizeOf, State(), result.value)
                && validator.State() == ValidatorAfter(old(State()), parsed)
    {
      hide Tables.IngestEvent, Tables.RecordGap, Tables.PinSource, ValidFrame, AcceptReplay, NotedIn, ValidatorAfter, Aligned;
      hide RemoveTerminalActivationMetadata, TerminationOf, AcceptActive, AcceptBeforeHello;
      if Aligned(State()) && Consume(State(), parsed, receivedAt, sizeOf).result.Ok? {
        AcceptedFrameIsNoted(State(), parsed, receivedAt, sizeOf);
      }
      if parsed.Known? && parsed.frame.EventFrame? && handshake && parsed.frame.sequence <= validator.cursor {
        result := CheckReplay(parsed.frame.sequence, parsed.frame.event, receivedAt);
        return;
      }
      var candidate := new BridgeStreamValidator.Of(validator.State());
      var refused := candidate.Accept(parsed);
      if refused.Some? { return Err(FromProtocol(refused.value)); }
      var report := ONE_FRAME;
      match parsed {
        case Known(Hello(_, source, _, latest)) =>
          if validator.cursor > latest { return Err(CursorAhead(validator.cursor, latest)); }
          var pinned := desktop.PinSource(key, source);
          if pinned.Err? { return Err(FromDesktop(pinned.error)); }
          handshake := true;
        case Known(EventFrame(sequence, event)) =>
          var stripped := RemoveTerminalActivationMetadata(event);
          var ingested := desktop.IngestEvent(key, sequence, stripped, sizeOf(stripped), receivedAt);
          match ingested {
            case Err(e) => return Err(FromDesktop(e));
            case Ok(Inserted(_, _)) => report := report.(ingested := 1);
            case Ok(Duplicate) => report := report.(duplicates := 1);
          }
        case Known(Gap(requestedAfter, _, lostThrough)) =>
          var recorded := desktop.RecordGap(key, requestedAfter, lostThrough, receivedAt);
          match recorded {
            case Err(e) => return Err(FromDesktop(e));
            case Ok(Recorded(_)) => report := report.(gaps := 1);
            case Ok(DuplicateGap) =>
          }
        case Known(Heartbeat) => report := report.(heartbeats := 1);
        case Known(ErrorFrame(code, _)) =>
          termination := Some(TerminationOf(code));
          report := report.(termination := termination);
        case Unknown(_) => report := report.(unknownFrames := 1);
      }
      validator := candidate;
      lastFrameAt := receivedAt;
      return Ok(report);
    }

    method CheckReplay(sequence: int, event: Event, receivedAt: int) returns (result: Result<Report, ConsumerError>)
      modifies this`lastFrameAt, desktop
      ensures Consumed(State(), result) == AcceptReplay(old(State()), sequence, event, receivedAt, sizeOf)
    {
      if validator.sourceId.None? { return Err(FromProtocol(MissingStreamSource)); }
      if event.sourceId != validator.sourceId.value {
        return Err(FromProtocol(SourceIdentityMismatch(validator.sourceId.value, event.sourceId)));
      }
      var stripped := RemoveTerminalActivationMetadata(event);
      var ingested := desktop.IngestEvent(key, sequence, stripped, sizeOf(stripped), receivedAt);
      match ingested
      case Err(e) => return Err(FromDesktop(e));
      case Ok(Inserted(_, _)) => return Err(UnexpectedReplayInsertion(sequence));
      case Ok(Duplicate) =>
        lastFrameAt := receivedAt;
        return Ok(ONE_FRAME.(duplicates := 1));
    }

    /** One chunk of the child's standard output, one byte at a time. */
    method PushStdout(chunk: Bytes, receivedAt: int) returns (result: Result<Report, ConsumerError>)
      modifies this, desktop, decoder
      ensures validator == old(validator) || fresh(validator)
      ensures Feed(State(), decoder.buffer, result)
           == FeedChunk(decoder.json, Feed(old(State()), old(decoder.buffer), Ok(EMPTY_REPORT)), chunk, receivedAt, sizeOf)
    {
      hide Decode, Consume;
      var report := EMPTY_REPORT;
      ghost var start := Feed(old(State()), old(decoder.buffer), Ok(EMPTY_REPORT));
      for i := 0 to |chunk|
        invariant validator == old(validator) || fresh(validator)
        invariant FeedChunk(decoder.json, start, chunk[..i], receivedAt, sizeOf) == Feed(State(), decoder.buffer, Ok(report))
      {
        assert chunk[..i + 1][..i] == chunk[..i];
        FeedStops(decoder.json, start, chunk, i + 1, receivedAt, sizeOf);
        DecodeOneMore(decoder.json, decoder.buffer, [], chunk[i]);
        DecodeNothing(decoder.json, decoder.buffer);
        var decoded := decoder.Push([chunk[i]]);
        if decoded.Err? { return Err(FromProtocol(decoded.error)); }
        if decoded.value != [] {
          ConsumeSingle(State(), decoded.value, receivedAt, sizeOf);
          var accepted := AcceptFrame(decoded.value[0], receivedAt);
          if accepted.Err? { return accepted; }
          report := Merge(report, accepted.value);
        }
      }
      assert chunk[..|chunk|] == chunk;
      return Ok(report);
    }

    /** End of output: retry, unless the remote already said why it stopped; half a frame is an error. */
    method FinishStdout() returns (result: Result<Termination, ConsumerError>)
      ensures result == if decoder.buffer != [] then Err(FromProtocol(UnterminatedFrame(|decoder.buffer|)))
                        else Ok(if termination.Some? then termination.value else Termination(Retry, UnexpectedEof))
    {
      var unfinished := decoder.Finish();
      if unfinished.Some? { return Err(FromProtocol(unfinished.value)); }
      if termination.Some? { return Ok(termination.value); }
      return Ok(Termination(Retry, UnexpectedEof));
    }

    /** The wall-clock verdict on a silent child; a clock that went backwards never times out. */
    method TimeoutAt(now: int) returns (timeout: Option<Termination>)
      ensures termination.Some? ==> timeout == termination
      ensures termination.None? ==>
                timeout == if handshake && now - lastFrameAt >= 45_000 then Some(Termination(Retry, Stale))
                           else if !handshake && now - startedAt >= 20_000 then Some(Termination(Retry, StartupTimedOut))
                           else None
    {
      if termination.Some? { return termination; }
      var (reference, limit, diagnostic) :=
        if handshake then (lastFrameAt, STALE_TIMEOUT, Stale) else (startedAt, STARTUP_TIMEOUT, StartupTimedOut);
      var elapsed := now - reference;
      if elapsed < 0 { return None; }
      return if elapsed >= limit then Some(Termination(Retry, diagnostic)) else None;
    }
  }

  lemma {:induction false} FeedStops(json: JsonReader, f: Feed, chunk: Bytes, at: nat, receivedAt: int, sizeOf: Sizer)
    requires at <= |chunk|
    ensures var some := FeedChunk(json, f, chunk[..at], receivedAt, sizeOf);
            some.result.Err? ==> FeedChunk(json, f, chunk, receivedAt, sizeOf) == some
    decreases |chunk|
  {
    hide Decode, ConsumeAll;
    if at < |chunk| {
      assert chunk[..|chunk| - 1][..at] == chunk[..at];
      FeedStops(json, f, chunk[..|chunk| - 1], at, receivedAt, sizeOf);
    } else {
      assert chunk[..at] == chunk;
    }
  }
}
