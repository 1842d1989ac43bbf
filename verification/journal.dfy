/** The ever-delivered and ever-lost history of a run, which the database itself forgets. */
module Journal {
  import opened Base
  import opened Events
  import opened Rows
  import opened Tables
  import opened History
  import opened Dispatch
  import opened Runs

  datatype Entry =
    | DeliveredEvent(sourceId: Uuid, sequence: int, event: Event)
    | LostRange(sourceId: Uuid, lostFrom: int, lostThrough: int)

  function First(entry: Entry): int {
    if entry.DeliveredEvent? then entry.sequence else entry.lostFrom
  }

  function Last(entry: Entry): int {
    if entry.DeliveredEvent? then entry.sequence else entry.lostThrough
  }

  predicate Covers(entry: Entry, id: Uuid, sequence: int) {
    entry.sourceId == id && First(entry) <= sequence <= Last(entry)
  }

  /** What one transaction adds: exactly what its caller was told was inserted or recorded. */
  function NewEntries(db: Db, op: Op): seq<Entry> {
    match op
    case Ingest(key, sequence, event, bytes, receivedAt) =>
      var result := IngestEvent(db, key, sequence, event, bytes, receivedAt).result;
      if result.Ok? && result.value.Inserted? then [DeliveredEvent(event.sourceId, sequence, event)] else []
    case DeclareGap(key, requestedAfter, lostThrough, receivedAt) =>
      var result := RecordGap(db, key, requestedAfter, lostThrough, receivedAt).result;
      if result.Ok? && result.value.Recorded?
      then
        assert key in db.sources && db.sources[key].pinned.Some?;
        [LostRange(db.sources[key].pinned.value, requestedAfter + 1, lostThrough)]
      else []
    case _ => []
  }

  datatype World = World(db: Db, log: seq<Entry>)

  function Step(w: World, op: Op): World {
    World(Apply(w.db, op), w.log + NewEntries(w.db, op))
  }

  function Run(ops: seq<Op>): World {
    if ops == [] then World(EMPTY_DATABASE, [])
    else Step(Run(ops[..|ops| - 1]), ops[|ops| - 1])
  }

  /** Restricted to one source, the log lays ranges end to end from 1 up to top. */
  ghost predicate Tiled(log: seq<Entry>, id: Uuid, top: int) {
    if log == [] then top == 0
    else
      var last, rest := log[|log| - 1], log[..|log| - 1];
      if last.sourceId != id then Tiled(rest, id, top)
      else Last(last) == top && First(last) <= top && Tiled(rest, id, First(last) - 1)
  }

  lemma TiledAppend(log: seq<Entry>, entry: Entry, id: Uuid, top: int)
    ensures Tiled(log + [entry], id, top)
        <==> if entry.sourceId != id then Tiled(log, id, top)
             else Last(entry) == top && First(entry) <= top && Tiled(log, id, First(entry) - 1)
  {
    assert (log + [entry])[..|log|] == log;
  }

  /** Laid end to end means: 1..top is covered, nothing else is, and nothing is covered twice. */
  lemma {:induction false} TiledCoversOnce(log: seq<Entry>, id: Uuid, top: int, sequence: int)
    requires Tiled(log, id, top)
    ensures 0 <= top
    ensures 1 <= sequence <= top <==> exists i :: 0 <= i < |log| && Covers(log[i], id, sequence)
    ensures forall i, j | 0 <= i < |log| && 0 <= j < |log| ::
              Covers(log[i], id, sequence) && Covers(log[j], id, sequence) ==> i == j
  {
    if log != [] {
      var m := |log| - 1;
      var rest := log[..m];
      var below := if log[m].sourceId == id then First(log[m]) - 1 else top;
      TiledCoversOnce(rest, id, below, sequence);
      assert forall i :: 0 <= i < m ==> rest[i] == log[i];
      if exists i :: 0 <= i < m && Covers(rest[i], id, sequence) {
        var i :| 0 <= i < m && Covers(rest[i], id, sequence);
        assert Covers(log[i], id, sequence);
      }
    }
  }

  /** Everything still stored was once delivered or lost, as the log says. */
  ghost predicate Remembered(w: World) {
    && (forall r :: r in w.db.events ==> DeliveredEvent(r.sourceId, r.sequence, r.event) in w.log)
    && (forall t :: t in w.db.tombstones ==> Buried(t, w.log))
    && (forall g :: g in w.db.gaps ==> LostRange(g.sourceId, g.lostFrom, g.lostThrough) in w.log)
  }

  ghost predicate Buried(t: Tombstone, log: seq<Entry>) {
    DeliveredEvent(t.sourceId, t.sequence, t.digest) in log && t.digest.id == t.eventId
  }

  ghost predicate Faithful(w: World) {
    && Sound(w.db)
    && (forall id :: Tiled(w.log, id, Checkpoint(w.db, id)))
    && Remembered(w)
  }

  /** Transactions other than an insertion or a recorded gap move no checkpoint. */
  lemma QuietOpsKeepCheckpoints(db: Db, op: Op)
    requires Sound(db) && NewEntries(db, op) == []
    ensures Apply(db, op).checkpoints == db.checkpoints
    ensures forall r :: r in Apply(db, op).events ==> r in db.events
    ensures forall g :: g in Apply(db, op).gaps ==> g in db.gaps
  {
    hide Sound, Adopt, IngestEvent, RecordGap, MaintainHistory, DispatchOutbox, ReleaseSource, RegisterSource;
    match op
    case Maintain(historyNow, tombstoneNow) => MaintenanceIsSafe(db, historyNow, tombstoneNow);
    case Ingest(key, sequence, event, bytes, receivedAt) =>
      IngestInsertsOnlyNext(db, key, sequence, event, bytes, receivedAt);
    case DeclareGap(key, requestedAfter, lostThrough, receivedAt) =>
      GapInsertsOnlyNext(db, key, requestedAfter, lostThrough, receivedAt);
    case DispatchRound(round) => DispatchTouchesOutboxOnly(db, round);
    case Register(key, localLabel) => RegisterTouchesSourcesOnly(db, key, localLabel);
    case Pin(key, id) => AdoptTouchesSourcesOnly(db, key, id);
    case Replace(key, id) => AdoptTouchesSourcesOnly(db, key, id);
    case Release(key) => ReleaseTouchesSourcesOnly(db, key);
    case Requeue(now) =>
  }

  lemma DispatchTouchesOutboxOnly(db: Db, round: Round)
    ensures DispatchOutbox(db, round) == db.(outbox := DispatchOutbox(db, round).outbox)
  {
  }

  lemma RegisterTouchesSourcesOnly(db: Db, key: string, localLabel: string)
    ensures RegisterSource(db, key, localLabel).db == db.(sources := RegisterSource(db, key, localLabel).db.sources)
  {
  }

  lemma AdoptTouchesSourcesOnly(db: Db, key: string, id: Uuid)
    ensures key in db.sources ==> Adopt(db, key, id) == db.(sources := Adopt(db, key, id).sources)
  {
  }

  lemma ReleaseTouchesSourcesOnly(db: Db, key: string)
    ensures ReleaseSource(db, key).db == db.(sources := ReleaseSource(db, key).db.sources)
  {
  }

  /** Maintenance only turns stored events into tombstones of the same delivery. */
  lemma {:induction false} GravesAreDeliveries(db: Db, selected: seq<EventRow>, now: int, log: seq<Entry>)
    requires forall r :: r in selected ==> DeliveredEvent(r.sourceId, r.sequence, r.event) in log
    requires forall t :: t in db.tombstones ==> Buried(t, log)
    ensures forall t :: t in PruneEvents(db, selected, now).tombstones ==> Buried(t, log)
  {
    if selected != [] {
      var m := |selected| - 1;
      GravesAreDeliveries(db, selected[..m], now, log);
      assert selected[m] in selected;
      var before := PruneEvents(db, selected[..m], now);
      forall t | t in PruneEvents(db, selected, now).tombstones
        ensures Buried(t, log)
      {
        if t !in before.tombstones {
          assert t == Grave(before, selected[m], now);
        }
      }
    }
  }

  lemma MaintenanceKeepsMemory(w: World, historyNow: int, tombstoneNow: int)
    requires Sound(w.db) && Remembered(w)
    ensures Remembered(World(MaintainHistory(w.db, historyNow, tombstoneNow).0, w.log))
  {
    hide PruneEvents, SelectedEvents, OutdatedGaps, OutdatedTombstones, Candidates;
    hide WithinCheckpoint, CursorsSound, TracesDistinct, OutboxSound, Filter;
    MaintenanceIsSafe(w.db, historyNow, tombstoneNow);
    SelectedEventsAreCandidates(w.db, historyNow);
    GravesAreDeliveries(w.db, SelectedEvents(w.db, historyNow).selected, tombstoneNow, w.log);
  }

  lemma QuietStep(w: World, op: Op)
    requires NewEntries(w.db, op) == []
    ensures Step(w, op) == World(Apply(w.db, op), w.log)
  {
    hide Apply, NewEntries;
  }

  lemma QuietStepKeepsMemory(w: World, op: Op)
    requires Sound(w.db) && Remembered(w) && NewEntries(w.db, op) == []
    ensures Remembered(World(Apply(w.db, op), w.log))
  {
    hide Sound, NewEntries, MaintainHistory, DispatchOutbox, Buried;
    if op.Maintain? {
      MaintenanceKeepsMemory(w, op.historyNow, op.tombstoneNow);
    } else {
      hide Apply;
      QuietOpsKeepCheckpoints(w.db, op);
      OnlyMaintenanceDigsGraves(w.db, op);
    }
  }

  lemma QuietStepStaysFaithful(w: World, op: Op)
    requires Faithful(w) && NewEntries(w.db, op) == []
    ensures Faithful(Step(w, op))
  {
    hide Sound, Apply, NewEntries, Tiled, Step, Remembered;
    QuietStep(w, op);
    EveryOpKeepsSound(w.db, op);
    QuietOpsKeepCheckpoints(w.db, op);
    QuietStepKeepsMemory(w, op);
    forall id ensures Tiled(w.log, id, Checkpoint(Apply(w.db, op), id)) {
      assert Checkpoint(Apply(w.db, op), id) == Checkpoint(w.db, id);
    }
  }

  lemma OnlyMaintenanceDigsGraves(db: Db, op: Op)
    requires !op.Maintain?
    ensures Apply(db, op).tombstones == db.tombstones
  {
    hide DispatchOutbox, MaintainHistory, MatchingEvents, GapRecorded, KnownHighWatermark, OwnedElsewhere, ValidLocalText;
    if op.DispatchRound? { DispatchTouchesOutboxOnly(db, op.round); }
  }

  lemma IngestStepStaysFaithful(w: World, op: Op)
    requires Faithful(w) && op.Ingest? && NewEntries(w.db, op) != []
    ensures Faithful(Step(w, op))
  {
    hide Sound, CursorsSound, IngestEvent, Tiled;
    EveryOpKeepsSound(w.db, op);
    IngestInsertsOnlyNext(w.db, op.key, op.sequence, op.event, op.bytes, op.receivedAt);
    var entry := DeliveredEvent(op.event.sourceId, op.sequence, op.event);
    SoundCursors(w.db);
    InsertRaisesCheckpoint(w.db, op.key, op.sequence, op.event, op.bytes, op.receivedAt);
    forall id ensures Tiled(w.log + [entry], id, Checkpoint(Step(w, op).db, id)) {
      TiledAppend(w.log, entry, id, Checkpoint(Step(w, op).db, id));
    }
  }

  lemma SoundCursors(db: Db)
    requires Sound(db)
    ensures CursorsSound(db)
  {
  }

  lemma GapStepStaysFaithful(w: World, op: Op)
    requires Faithful(w) && op.DeclareGap? && NewEntries(w.db, op) != []
    ensures Faithful(Step(w, op))
  {
    hide Sound, CursorsSound, RecordGap, Tiled;
    EveryOpKeepsSound(w.db, op);
    GapInsertsOnlyNext(w.db, op.key, op.requestedAfter, op.lostThrough, op.receivedAt);
    var source := w.db.sources[op.key].pinned.value;
    var entry := LostRange(source, op.requestedAfter + 1, op.lostThrough);
    SoundCursors(w.db);
    GapRaisesCheckpoint(w.db, op.key, op.requestedAfter, op.lostThrough, op.receivedAt);
    forall id ensures Tiled(w.log + [entry], id, Checkpoint(Step(w, op).db, id)) {
      TiledAppend(w.log, entry, id, Checkpoint(Step(w, op).db, id));
    }
  }

  lemma StepStaysFaithful(w: World, op: Op)
    requires Faithful(w)
    ensures Faithful(Step(w, op))
  {
    hide Faithful, Step;
    if NewEntries(w.db, op) == [] {
      QuietStepStaysFaithful(w, op);
    } else if op.Ingest? {
      IngestStepStaysFaithful(w, op);
    } else {
      GapStepStaysFaithful(w, op);
    }
  }

  lemma {:induction false} EveryRunIsFaithful(ops: seq<Op>)
    ensures Faithful(Run(ops))
  {
    if ops == [] {
      assert forall id :: Tiled([], id, 0);
    } else {
      EveryRunIsFaithful(ops[..|ops| - 1]);
      StepStaysFaithful(Run(ops[..|ops| - 1]), ops[|ops| - 1]);
    }
  }

  /**
   * Log partition: over every run from an empty database, what was ever inserted and what was ever declared
   * lost covers 1..checkpoint of each source exactly once, through release, re-pin and pruning.
   */
  lemma LogPartition(ops: seq<Op>, id: Uuid, sequence: int)
    ensures var w := Run(ops);
            && (1 <= sequence <= Checkpoint(w.db, id) <==> exists i :: 0 <= i < |w.log| && Covers(w.log[i], id, sequence))
            && (forall i, j | 0 <= i < |w.log| && 0 <= j < |w.log| ::
                  Covers(w.log[i], id, sequence) && Covers(w.log[j], id, sequence) ==> i == j)
  {
    EveryRunIsFaithful(ops);
    TiledCoversOnce(Run(ops).log, id, Checkpoint(Run(ops).db, id), sequence);
  }

  /** In every run a pinned cursor stands at the known high watermark, an unpinned one at 0, one owner per identity. */
  lemma CursorsFollowWatermarks(ops: seq<Op>, key: string)
    requires key in Run(ops).db.sources
    ensures var db := Run(ops).db;
            && (db.sources[key].pinned.Some? ==> db.sources[key].cursor == KnownHighWatermark(db, db.sources[key].pinned.value))
            && (db.sources[key].pinned.None? ==> db.sources[key].cursor == 0)
            && (db.sources[key].pinned.Some? ==>
                  forall other | other in db.sources && other != key :: db.sources[other].pinned != db.sources[key].pinned)
  {
    hide KnownHighWatermark;
    EveryRunIsFaithful(ops);
    if Run(ops).db.sources[key].pinned.Some? {
      WatermarkIsCheckpoint(Run(ops).db, Run(ops).db.sources[key].pinned.value);
    }
  }

  /** The log only ever grows at its end. */
  lemma {:induction false} LogGrows(ops: seq<Op>, more: seq<Op>)
    ensures Run(ops).log <= Run(ops + more).log
  {
    hide Apply, NewEntries;
    if more == [] {
      assert ops + more == ops;
    } else {
      var m := |more| - 1;
      LogGrows(ops, more[..m]);
      assert (ops + more)[..|ops| + m] == ops + more[..m];
    }
  }

  /** Once a sequence was delivered or declared lost, no continuation of the run inserts it or declares it lost again. */
  lemma NothingHappensTwice(ops: seq<Op>, more: seq<Op>, id: Uuid, sequence: int, i: nat)
    requires i < |Run(ops).log| && Covers(Run(ops).log[i], id, sequence)
    ensures Run(ops).log <= Run(ops + more).log
    ensures forall k :: |Run(ops).log| <= k < |Run(ops + more).log| ==> !Covers(Run(ops + more).log[k], id, sequence)
  {
    hide Run, Covers;
    LogGrows(ops, more);
    LogPartition(ops + more, id, sequence);
    assert Run(ops + more).log[i] == Run(ops).log[i];
  }
}
