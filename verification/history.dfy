/** Bounded history maintenance: what one batch prunes, keeps and promises. */
module History {
  import opened Base
  import opened Events
  import opened Rows
  import opened Ordering
  import opened Deletion
  import opened Tables

  const DAY_MILLIS := 24 * 3600 * 1000
  const HISTORY_RETENTION := 30 * DAY_MILLIS
  const MAX_HISTORY_EVENTS := 10_000
  const MAX_DESKTOP_BYTES := 128 * 1024 * 1024
  const MAINTENANCE_BATCH := 512
  const MAX_TOMBSTONES := MAX_HISTORY_EVENTS

  predicate Active(state: OutboxState) {
    state.Pending? || state.FailedRetryable?
  }

  /** The event's outbox row has reached a final state, so its history may be pruned. */
  predicate Terminal(outbox: seq<OutboxRow>, event: EventRow) {
    exists o :: o in outbox && o.eventRow == event.id && !Active(o.state)
  }

  function EventAge(row: EventRow): Key { Key(row.receivedAt, row.id, 0) }
  function GapAge(row: GapRow): Key { Key(row.receivedAt, row.id, 0) }
  function TombstoneAge(row: Tombstone): Key { Key(row.createdAt, row.id, 0) }
  function EventBytes(row: EventRow): int { row.bytes }

  /** How many rows are newer than this one; a row is among the newest n iff fewer than n are. */
  function CountNewer<T>(rows: seq<T>, age: T -> Key, row: T): nat {
    if rows == [] then 0
    else CountNewer(rows[..|rows| - 1], age, row) + if Before(age(row), age(rows[|rows| - 1])) then 1 else 0
  }

  predicate Surplus<T>(rows: seq<T>, age: T -> Key, row: T, kept: int) {
    CountNewer(rows, age, row) >= kept
  }

  predicate Outdated(row: EventRow, rows: seq<EventRow>, cutoff: int) {
    row.receivedAt < cutoff || Surplus(rows, EventAge, row, MAX_HISTORY_EVENTS)
  }

  predicate GapOutdated(row: GapRow, rows: seq<GapRow>, cutoff: int) {
    row.receivedAt < cutoff || Surplus(rows, GapAge, row, MAX_HISTORY_EVENTS)
  }

  predicate TombstoneOutdated(row: Tombstone, rows: seq<Tombstone>, cutoff: int) {
    row.createdAt < cutoff || Surplus(rows, TombstoneAge, row, MAX_TOMBSTONES)
  }

  function Take<T>(s: seq<T>, limit: nat): (r: seq<T>)
    ensures |r| == Min(|s|, limit) && r == s[..|r|]
  {
    if |s| <= limit then s else s[..limit]
  }

  predicate IsCandidate(db: Db, cutoff: int, overBytes: bool, row: EventRow) {
    Terminal(db.outbox, row) && (Outdated(row, db.events, cutoff) || overBytes)
  }

  /** The events a batch may prune, oldest first. */
  function Candidates(db: Db, cutoff: int, overBytes: bool): seq<EventRow> {
    Sort(Filter(db.events, row => IsCandidate(db, cutoff, overBytes, row)), EventAge)
  }

  datatype Selection = Selection(selected: seq<EventRow>, bytes: int)

  /** The selection loop: outdated rows always go, others only while the payload budget is exceeded. */
  function Select(candidates: seq<EventRow>, rows: seq<EventRow>, cutoff: int, bytes: int): Selection {
    if candidates == [] then Selection([], bytes)
    else
      var before := Select(candidates[..|candidates| - 1], rows, cutoff, bytes);
      SelectStep(before, candidates[|candidates| - 1], rows, cutoff)
  }

  function SelectStep(before: Selection, row: EventRow, rows: seq<EventRow>, cutoff: int): Selection {
    if Outdated(row, rows, cutoff) || before.bytes > MAX_DESKTOP_BYTES
    then Selection(before.selected + [row], before.bytes - row.bytes)
    else before
  }

  /** INSERT OR IGNORE: a clash on either unique key silently keeps the old tombstone. */
  function Bury(tombstones: seq<Tombstone>, row: EventRow, now: int): seq<Tombstone> {
    if exists t :: t in tombstones && TombstoneMatches(t, row.sourceId, row.sequence, row.event.id) then tombstones
    else
      tombstones
      + [Tombstone(NextId(tombstones, TombstoneId), row.sourceId, row.sequence, row.event.id, row.event, now)]
  }

  /** One selected event leaves history: checkpoint, tombstone, deletion (its outbox row goes with it). */
  function PruneEvent(db: Db, row: EventRow, now: int): Db {
    db.(checkpoints := RaiseCheckpoint(db.checkpoints, row.sourceId, row.sequence),
        tombstones := Bury(db.tombstones, row, now),
        events := Without(db.events, EventRowId, {row.id}),
        outbox := Without(db.outbox, OutboxEvent, {row.id}))
  }

  function OutboxEvent(o: OutboxRow): int { o.eventRow }

  function PruneEvents(db: Db, selected: seq<EventRow>, now: int): Db {
    if selected == [] then db
    else PruneEvent(PruneEvents(db, selected[..|selected| - 1], now), selected[|selected| - 1], now)
  }

  function OutdatedGaps(gaps: seq<GapRow>, cutoff: int): seq<GapRow> {
    Take(Sort(Filter(gaps, g => GapOutdated(g, gaps, cutoff)), GapAge), MAINTENANCE_BATCH)
  }

  function OutdatedTombstones(tombstones: seq<Tombstone>, cutoff: int): seq<Tombstone> {
    Take(Sort(Filter(tombstones, t => TombstoneOutdated(t, tombstones, cutoff)), TombstoneAge), MAINTENANCE_BATCH)
  }

  datatype HistoryReport = HistoryReport(eventsPruned: int, gapsPruned: int, tombstonesPruned: int, remainingWork: bool)

  function SelectedEvents(db: Db, historyNow: int): Selection {
    var bytes := Sum(db.events, EventBytes);
    var cutoff := historyNow - HISTORY_RETENTION;
    Select(Take(Candidates(db, cutoff, bytes > MAX_DESKTOP_BYTES), MAINTENANCE_BATCH), db.events, cutoff, bytes)
  }

  function MaintainHistory(db: Db, historyNow: int, tombstoneNow: int): (Db, HistoryReport) {
    var cutoff := historyNow - HISTORY_RETENTION;
    var overBytes := Sum(db.events, EventBytes) > MAX_DESKTOP_BYTES;
    var selected := SelectedEvents(db, historyNow).selected;
    var pruned := PruneEvents(db, selected, tombstoneNow);
    var gaps := OutdatedGaps(pruned.gaps, cutoff);
    var tombstones := OutdatedTombstones(pruned.tombstones, tombstoneNow - HISTORY_RETENTION);
    (pruned.(gaps := Without(pruned.gaps, GapRowId, Ids(gaps, GapRowId)),
             tombstones := Without(pruned.tombstones, TombstoneId, Ids(tombstones, TombstoneId))),
     HistoryReport(|selected|, |gaps|, |tombstones|,
                   |Candidates(db, cutoff, overBytes)| > MAINTENANCE_BATCH
                   || |gaps| == MAINTENANCE_BATCH || |tombstones| == MAINTENANCE_BATCH))
  }

  // ---- The selection ----

  /** Candidates are the prunable events, each once. */
  lemma CandidatesAreThose(db: Db, cutoff: int, overBytes: bool)
    requires RowIdsSound(db)
    ensures var c := Candidates(db, cutoff, overBytes);
            && Distinct(c) && Sorted(c, EventAge)
            && forall r :: r in c <==> r in db.events && IsCandidate(db, cutoff, overBytes, r)
  {
    var found := Filter(db.events, row => IsCandidate(db, cutoff, overBytes, row));
    FilterAscending(db.events, row => IsCandidate(db, cutoff, overBytes, row), EventRowId);
    AscendingDistinct(found, EventRowId);
    SortDistinct(found, EventAge);
    SortMembers(found, EventAge);
    SortSorted(found, EventAge);
  }

  lemma {:induction false} SelectSubset(candidates: seq<EventRow>, rows: seq<EventRow>, cutoff: int, bytes: int)
    requires Distinct(candidates)
    ensures var s := Select(candidates, rows, cutoff, bytes);
            && Distinct(s.selected)
            && (forall r :: r in s.selected ==> r in candidates)
            && s.bytes == bytes - Sum(s.selected, EventBytes)
            && s.bytes <= bytes
  {
    if candidates != [] {
      var m := |candidates| - 1;
      var before := Select(candidates[..m], rows, cutoff, bytes);
      SelectSubset(candidates[..m], rows, cutoff, bytes);
      SumAppend(before.selected, candidates[m], EventBytes);
      assert candidates[m] !in candidates[..m];
    }
  }

  /** A considered row survives only if it is not outdated and the bytes have already come within budget. */
  lemma {:induction false} SurvivorsAreWithinBudget(candidates: seq<EventRow>, rows: seq<EventRow>, cutoff: int, bytes: int, r: EventRow)
    requires r in candidates && r !in Select(candidates, rows, cutoff, bytes).selected
    ensures !Outdated(r, rows, cutoff) && Select(candidates, rows, cutoff, bytes).bytes <= MAX_DESKTOP_BYTES
  {
    var m := |candidates| - 1;
    if r in candidates[..m] {
      SurvivorsAreWithinBudget(candidates[..m], rows, cutoff, bytes, r);
    }
  }

  lemma {:induction false} SomethingIsSelected(candidates: seq<EventRow>, rows: seq<EventRow>, cutoff: int, bytes: int)
    requires candidates != []
    requires bytes > MAX_DESKTOP_BYTES || forall r :: r in candidates ==> Outdated(r, rows, cutoff)
    ensures Select(candidates, rows, cutoff, bytes).selected != []
  {
    if |candidates| > 1 {
      SomethingIsSelected(candidates[..|candidates| - 1], rows, cutoff, bytes);
    } else {
      assert Select(candidates[..0], rows, cutoff, bytes) == Selection([], bytes);
    }
  }

  /** Under byte pressure the oldest go first: whatever survives is not older than an event pruned only for bytes. */
  lemma {:induction false} OldestGoFirst(candidates: seq<EventRow>, rows: seq<EventRow>, cutoff: int, bytes: int, kept: EventRow, pruned: EventRow)
    requires Sorted(candidates, EventAge) && Distinct(candidates)
    requires kept in candidates && kept !in Select(candidates, rows, cutoff, bytes).selected
    requires pruned in Select(candidates, rows, cutoff, bytes).selected && !Outdated(pruned, rows, cutoff)
    ensures !Before(EventAge(kept), EventAge(pruned))
  {
    hide Select, Outdated, Before, EventAge, Sum;
    var m := |candidates| - 1;
    SelectLast(candidates, rows, cutoff, bytes);
    SelectSubset(candidates[..m], rows, cutoff, bytes);
    if kept == candidates[m] {
      assert pruned in candidates[..m];
      var j :| 0 <= j < m && candidates[..m][j] == pruned;
      assert !Before(EventAge(candidates[m]), EventAge(candidates[j]));
    } else if pruned == candidates[m] {
      assert pruned !in candidates[..m];
      SurvivorsAreWithinBudget(candidates[..m], rows, cutoff, bytes, kept);
    } else {
      OldestGoFirst(candidates[..m], rows, cutoff, bytes, kept, pruned);
    }
  }

  lemma SelectLast(candidates: seq<EventRow>, rows: seq<EventRow>, cutoff: int, bytes: int)
    requires candidates != []
    ensures var m := |candidates| - 1;
            Select(candidates, rows, cutoff, bytes)
            == SelectStep(Select(candidates[..m], rows, cutoff, bytes), candidates[m], rows, cutoff)
  {
  }

  // ---- Pruning one event after another ----

  function Grave(db: Db, row: EventRow, now: int): Tombstone {
    Tombstone(NextId(db.tombstones, TombstoneId), row.sourceId, row.sequence, row.event.id, row.event, now)
  }

  /** What pruning one event amounts to on a sound database. */
  ghost predicate MovedToTombstone(db: Db, row: EventRow, now: int, after: Db) {
    && after.sources == db.sources && after.gaps == db.gaps && after.checkpoints == db.checkpoints
    && (forall r :: r in after.events <==> r in db.events && r != row)
    && (forall o :: o in after.outbox <==> o in db.outbox && o.eventRow != row.id)
    && after.tombstones == db.tombstones + [Grave(db, row, now)]
    && RowIdsSound(after)
  }

  lemma PruneEventMoves(db: Db, row: EventRow, now: int)
    requires Sound(db) && row in db.events
    ensures MovedToTombstone(db, row, now, PruneEvent(db, row, now))
  {
    hide Filter, CursorsSound, OutboxSound;
    forall r | r in db.events && r.id == row.id ensures r == row {
      AscendingUnique(db.events, EventRowId, r, row);
    }
    WithoutAscending(db.events, EventRowId, {row.id}, EventRowId);
    WithoutAscending(db.outbox, OutboxEvent, {row.id}, OutboxId);
    assert !exists t :: t in db.tombstones && TombstoneMatches(t, row.sourceId, row.sequence, row.event.id);
    assert RaiseCheckpoint(db.checkpoints, row.sourceId, row.sequence) == db.checkpoints;
  }

  lemma MovedKeepsTraces(db: Db, row: EventRow, now: int, after: Db)
    requires WithinCheckpoint(db) && TracesDistinct(db) && row in db.events && MovedToTombstone(db, row, now, after)
    ensures WithinCheckpoint(after) && TracesDistinct(after)
  {
    var grave := Grave(db, row, now);
    forall t | t in after.tombstones ensures t == grave || t in db.tombstones {
    }
    forall r | r in after.events ensures !TombstoneMatches(grave, r.sourceId, r.sequence, r.event.id) {
      assert !EventMatches(row, r.sourceId, r.sequence, r.event.id);
    }
    forall t | t in db.tombstones
      ensures !TombstoneMatches(grave, t.sourceId, t.sequence, t.eventId)
      ensures !TombstoneMatches(t, grave.sourceId, grave.sequence, grave.eventId)
    {
      assert !TombstoneMatches(t, row.sourceId, row.sequence, row.event.id);
    }
  }

  lemma MovedKeepsOutbox(db: Db, row: EventRow, now: int, after: Db)
    requires OutboxSound(db) && RowIdsSound(db) && row in db.events && MovedToTombstone(db, row, now, after)
    ensures OutboxSound(after)
  {
    forall id ensures HasEvent(after.events, id) <==> HasOutbox(after.outbox, id) {
      assert HasEvent(db.events, id) <==> HasOutbox(db.outbox, id);
      if HasEvent(after.events, id) {
        var r :| r in after.events && r.id == id;
        if id == row.id { AscendingUnique(db.events, EventRowId, r, row); }
        var o :| o in db.outbox && o.eventRow == id;
        assert o in after.outbox;
      }
      if HasOutbox(after.outbox, id) {
        var o :| o in after.outbox && o.eventRow == id;
        var r :| r in db.events && r.id == id;
        assert r in after.events;
      }
    }
  }

  lemma PruneEventSound(db: Db, row: EventRow, now: int)
    requires Sound(db) && row in db.events
    ensures Sound(PruneEvent(db, row, now)) && MovedToTombstone(db, row, now, PruneEvent(db, row, now))
  {
    hide PruneEvent, WithinCheckpoint, TracesDistinct, OutboxSound;
    PruneEventMoves(db, row, now);
    MovedKeepsTraces(db, row, now, PruneEvent(db, row, now));
    MovedKeepsOutbox(db, row, now, PruneEvent(db, row, now));
  }

  /**
   * Pruning a batch of history events moves each into exactly one tombstone, whatever the order,
   * and touches nothing else; no insertion is ever ignored.
   */
  lemma {:induction false} PruneEventsSound(db: Db, selected: seq<EventRow>, now: int)
    requires Sound(db) && Distinct(selected) && forall r :: r in selected ==> r in db.events
    ensures var after := PruneEvents(db, selected, now);
            && Sound(after)
            && after.sources == db.sources && after.gaps == db.gaps && after.checkpoints == db.checkpoints
            && (forall r :: r in after.events <==> r in db.events && r !in selected)
            && (forall o :: o in after.outbox <==> o in db.outbox && forall r :: r in selected ==> o.eventRow != r.id)
            && |after.tombstones| == |db.tombstones| + |selected|
  {
    if selected != [] {
      var m := |selected| - 1;
      hide PruneEvent, Sound;
      PruneEventsSound(db, selected[..m], now);
      assert selected[m] !in selected[..m];
      PruneEventSound(PruneEvents(db, selected[..m], now), selected[m], now);
      assert forall r :: r in selected <==> r in selected[..m] || r == selected[m];
    }
  }

  /** A tombstone of this instant that keeps the event's sequence, identity and payload. */
  ghost predicate GraveOf(t: Tombstone, row: EventRow, now: int) {
    t.createdAt == now && t.sourceId == row.sourceId && t.sequence == row.sequence && t.eventId == row.event.id && t.digest == row.event
  }

  /** Every pruned event has its own tombstone behind the old ones, dated by the batch. */
  ghost predicate BuriedAt(db: Db, selected: seq<EventRow>, now: int, after: seq<Tombstone>) {
    && |after| == |db.tombstones| + |selected| && after[..|db.tombstones|] == db.tombstones
    && forall i :: 0 <= i < |selected| ==> GraveOf(after[|db.tombstones| + i], selected[i], now)
  }

  lemma {:induction false} PruningBuries(db: Db, selected: seq<EventRow>, now: int)
    requires Sound(db) && Distinct(selected) && forall r :: r in selected ==> r in db.events
    ensures BuriedAt(db, selected, now, PruneEvents(db, selected, now).tombstones)
  {
    hide PruneEvent, Sound;
    if selected != [] {
      var m := |selected| - 1;
      PruningBuries(db, selected[..m], now);
      PruneEventsSound(db, selected[..m], now);
      assert selected[m] !in selected[..m];
      var before := PruneEvents(db, selected[..m], now);
      PruneEventSound(before, selected[m], now);
      BuriedOneMore(db, selected, now, before.tombstones, Grave(before, selected[m], now));
    }
  }

  lemma BuriedOneMore(db: Db, selected: seq<EventRow>, now: int, before: seq<Tombstone>, t: Tombstone)
    requires selected != [] && BuriedAt(db, selected[..|selected| - 1], now, before)
    requires GraveOf(t, selected[|selected| - 1], now)
    ensures BuriedAt(db, selected, now, before + [t])
  {
    hide GraveOf;
    assert (before + [t])[..|db.tombstones|] == before[..|db.tombstones|];
    forall i | 0 <= i < |selected| - 1 ensures GraveOf((before + [t])[|db.tombstones| + i], selected[i], now) {
      assert selected[..|selected| - 1][i] == selected[i];
    }
  }

  lemma {:induction false} CountNewerShrinks<T(!new)>(rows: seq<T>, p: T -> bool, age: T -> Key, row: T)
    ensures CountNewer(Filter(rows, p), age, row) <= CountNewer(rows, age, row)
  {
    if rows != [] {
      var m := |rows| - 1;
      CountNewerShrinks(rows[..m], p, age, row);
      var kept := Filter(rows[..m], p);
      assert (kept + [rows[m]])[..|kept|] == kept;
    }
  }

  lemma DeletionOnlyRaisesRank<T(!new)>(rows: seq<T>, id: T -> int, gone: set<int>, age: T -> Key, row: T)
    ensures CountNewer(Without(rows, id, gone), age, row) <= CountNewer(rows, age, row)
  {
    CountNewerShrinks(rows, x => id(x) !in gone, age, row);
  }

  lemma IdsOfOne(row: EventRow)
    ensures Ids([row], EventRowId) == {row.id}
  {
    assert row in [row] && EventRowId(row) == row.id;
    assert row.id in Ids([row], EventRowId);
    assert forall x :: x in Ids([row], EventRowId) ==> x == row.id;
  }

  /** What deleting one event does to the size, the payload total and everybody's recency rank. */
  lemma PruneEventTotals(db: Db, row: EventRow, now: int)
    requires RowIdsSound(db) && row in db.events
    ensures var after := PruneEvent(db, row, now).events;
            && |after| == |db.events| - 1
            && Sum(after, EventBytes) == Sum(db.events, EventBytes) - row.bytes
            && forall x :: CountNewer(after, EventAge, x) <= CountNewer(db.events, EventAge, x)
  {
    hide Filter, CountNewer, Bury, RaiseCheckpoint;
    IdsOfOne(row);
    WithoutTotals(db.events, EventRowId, [row], EventBytes);
    forall x ensures CountNewer(Without(db.events, EventRowId, {row.id}), EventAge, x) <= CountNewer(db.events, EventAge, x) {
      DeletionOnlyRaisesRank(db.events, EventRowId, {row.id}, EventAge, x);
    }
    assert Sum([row], EventBytes) == row.bytes by {
      SumAppend([], row, EventBytes);
      assert [] + [row] == [row];
    }
  }

  lemma {:induction false} PruneEventsTotals(db: Db, selected: seq<EventRow>, now: int)
    requires Sound(db) && Distinct(selected) && forall r :: r in selected ==> r in db.events
    ensures var after := PruneEvents(db, selected, now).events;
            && |after| == |db.events| - |selected|
            && Sum(after, EventBytes) == Sum(db.events, EventBytes) - Sum(selected, EventBytes)
            && forall x :: CountNewer(after, EventAge, x) <= CountNewer(db.events, EventAge, x)
  {
    hide PruneEvent, Sound, CountNewer, Sum;
    if selected == [] {
      NothingPruned(db, now);
    } else {
      var m := |selected| - 1;
      PruneEventsTotals(db, selected[..m], now);
      PruneEventsSound(db, selected[..m], now);
      assert selected[m] !in selected[..m];
      var before := PruneEvents(db, selected[..m], now);
      SoundRowOrder(before);
      PruneEventTotals(before, selected[m], now);
      SumAppend(selected[..m], selected[m], EventBytes);
      assert selected[..m] + [selected[m]] == selected;
      forall x ensures CountNewer(PruneEvents(db, selected, now).events, EventAge, x) <= CountNewer(db.events, EventAge, x) {
        assert CountNewer(before.events, EventAge, x) <= CountNewer(db.events, EventAge, x);
      }
    }
  }

  lemma NothingPruned(db: Db, now: int)
    ensures PruneEvents(db, [], now) == db && Sum<EventRow>([], EventBytes) == 0
  {
  }

  lemma SoundRowOrder(db: Db)
    requires Sound(db)
    ensures RowIdsSound(db)
  {
  }

  lemma SelectedEventsAreCandidates(db: Db, historyNow: int)
    requires RowIdsSound(db)
    ensures var s := SelectedEvents(db, historyNow);
            && Distinct(s.selected)
            && (forall r :: r in s.selected ==> r in db.events && Terminal(db.outbox, r))
            && s.bytes == Sum(db.events, EventBytes) - Sum(s.selected, EventBytes)
  {
    hide Select, Sum, Filter, Sort;
    var bytes, cutoff := Sum(db.events, EventBytes), historyNow - HISTORY_RETENTION;
    var all := Candidates(db, cutoff, bytes > MAX_DESKTOP_BYTES);
    CandidatesAreThose(db, cutoff, bytes > MAX_DESKTOP_BYTES);
    SelectSubset(Take(all, MAINTENANCE_BATCH), db.events, cutoff, bytes);
  }

  lemma OutdatedGapsAreThose(gaps: seq<GapRow>, cutoff: int)
    requires Ascending(gaps, GapRowId)
    ensures var g := OutdatedGaps(gaps, cutoff);
            && |g| <= MAINTENANCE_BATCH && Distinct(g) && (forall x :: x in g ==> x in gaps && GapOutdated(x, gaps, cutoff))
            && (|g| < MAINTENANCE_BATCH ==> forall x :: x in gaps && GapOutdated(x, gaps, cutoff) ==> x in g)
  {
    hide Sort, Filter, CountNewer;
    var found := Filter(gaps, g => GapOutdated(g, gaps, cutoff));
    FilterAscending(gaps, g => GapOutdated(g, gaps, cutoff), GapRowId);
    AscendingDistinct(found, GapRowId);
    SortDistinct(found, GapAge);
    SortMembers(found, GapAge);
  }

  lemma OutdatedTombstonesAreThose(tombstones: seq<Tombstone>, cutoff: int)
    requires Ascending(tombstones, TombstoneId)
    ensures var t := OutdatedTombstones(tombstones, cutoff);
            && |t| <= MAINTENANCE_BATCH && Distinct(t) && (forall x :: x in t ==> x in tombstones && TombstoneOutdated(x, tombstones, cutoff))
            && (|t| < MAINTENANCE_BATCH ==>
                  forall x :: x in tombstones && TombstoneOutdated(x, tombstones, cutoff) ==> x in t)
  {
    hide Sort, Filter, CountNewer;
    var found := Filter(tombstones, t => TombstoneOutdated(t, tombstones, cutoff));
    FilterAscending(tombstones, t => TombstoneOutdated(t, tombstones, cutoff), TombstoneId);
    AscendingDistinct(found, TombstoneId);
    SortDistinct(found, TombstoneAge);
    SortMembers(found, TombstoneAge);
  }

  /** Dropping gaps and tombstones cannot spoil a sound database. */
  lemma FewerTracesStaySound(db: Db, gaps: seq<GapRow>, tombstones: seq<Tombstone>)
    requires Sound(db)
    requires Ascending(gaps, GapRowId) && forall g :: g in gaps ==> g in db.gaps
    requires Ascending(tombstones, TombstoneId) && forall t :: t in tombstones ==> t in db.tombstones
    ensures Sound(db.(gaps := gaps, tombstones := tombstones))
  {
    var after := db.(gaps := gaps, tombstones := tombstones);
    assert WithinCheckpoint(after);
    assert TracesDistinct(after);
    assert OutboxSound(after);
    assert CursorsSound(after);
  }

  /**
   * A maintenance batch is safe: cursors, checkpoints and everything still to be delivered stay as they are,
   * what is pruned was finished, and history and tombstones keep describing disjoint deliveries.
   */
  lemma MaintenanceIsSafe(db: Db, historyNow: int, tombstoneNow: int)
    requires Sound(db)
    ensures var (after, report) := MaintainHistory(db, historyNow, tombstoneNow);
            && Sound(after)
            && after.sources == db.sources && after.checkpoints == db.checkpoints
            && (forall r :: r in after.events ==> r in db.events)
            && (forall r :: r in db.events && !Terminal(db.outbox, r) ==> r in after.events)
            && (forall o :: o in after.outbox ==> o in db.outbox)
            && (forall o :: o in db.outbox && Active(o.state) ==> o in after.outbox)
            && (forall g :: g in after.gaps ==> g in db.gaps)
  {
    hide PruneEvents, SelectedEvents, OutdatedGaps, OutdatedTombstones, Candidates, Filter;
    hide WithinCheckpoint, CursorsSound, TracesDistinct;
    var selected := SelectedEvents(db, historyNow).selected;
    SelectedEventsAreCandidates(db, historyNow);
    PruneEventsSound(db, selected, tombstoneNow);
    var pruned := PruneEvents(db, selected, tombstoneNow);
    var gaps := Ids(OutdatedGaps(pruned.gaps, historyNow - HISTORY_RETENTION), GapRowId);
    var graves := Ids(OutdatedTombstones(pruned.tombstones, tombstoneNow - HISTORY_RETENTION), TombstoneId);
    WithoutAscending(pruned.gaps, GapRowId, gaps, GapRowId);
    WithoutAscending(pruned.tombstones, TombstoneId, graves, TombstoneId);
    FewerTracesStaySound(pruned, Without(pruned.gaps, GapRowId, gaps), Without(pruned.tombstones, TombstoneId, graves));
    forall o | o in db.outbox && Active(o.state) ensures o in pruned.outbox {
      forall r | r in selected ensures o.eventRow != r.id {
        var p :| p in db.outbox && p.eventRow == r.id && !Active(p.state);
      }
    }
  }

  /** The report counts what left each table. */
  lemma MaintenanceReportIsExact(db: Db, historyNow: int, tombstoneNow: int)
    requires Sound(db)
    ensures var (after, report) := MaintainHistory(db, historyNow, tombstoneNow);
            && |after.events| == |db.events| - report.eventsPruned
            && |after.gaps| == |db.gaps| - report.gapsPruned
            && |after.tombstones| == |db.tombstones| + report.eventsPruned - report.tombstonesPruned
            && Sum(after.events, EventBytes) == SelectedEvents(db, historyNow).bytes
            && forall x :: CountNewer(after.events, EventAge, x) <= CountNewer(db.events, EventAge, x)
  {
    hide PruneEvents, SelectedEvents, OutdatedGaps, OutdatedTombstones, Candidates, Filter, Sum, CountNewer;
    hide WithinCheckpoint, CursorsSound, TracesDistinct, OutboxSound;
    var selected := SelectedEvents(db, historyNow).selected;
    SelectedEventsAreCandidates(db, historyNow);
    PruneEventsSound(db, selected, tombstoneNow);
    PruneEventsTotals(db, selected, tombstoneNow);
    var pruned := PruneEvents(db, selected, tombstoneNow);
    OutdatedGapsAreThose(pruned.gaps, historyNow - HISTORY_RETENTION);
    OutdatedTombstonesAreThose(pruned.tombstones, tombstoneNow - HISTORY_RETENTION);
    WithoutTotals(pruned.gaps, GapRowId, OutdatedGaps(pruned.gaps, historyNow - HISTORY_RETENTION), GapRowId);
    WithoutTotals(pruned.tombstones, TombstoneId,
                  OutdatedTombstones(pruned.tombstones, tombstoneNow - HISTORY_RETENTION), TombstoneId);
  }

  /** Work remaining means progress was made: (events, gaps, tombstones) decreases lexicographically. */
  lemma RemainingWorkMakesProgress(db: Db, historyNow: int, tombstoneNow: int)
    requires Sound(db) && MaintainHistory(db, historyNow, tombstoneNow).1.remainingWork
    ensures var after := MaintainHistory(db, historyNow, tombstoneNow).0;
            || |after.events| < |db.events|
            || (|after.events| == |db.events| && |after.gaps| < |db.gaps|)
            || (|after.events| == |db.events| && |after.gaps| == |db.gaps| && |after.tombstones| < |db.tombstones|)
  {
    hide PruneEvents, OutdatedGaps, OutdatedTombstones, Candidates, Filter, Sum, CountNewer, Select;
    hide WithinCheckpoint, CursorsSound, TracesDistinct, OutboxSound;
    MaintenanceReportIsExact(db, historyNow, tombstoneNow);
    var cutoff, bytes := historyNow - HISTORY_RETENTION, Sum(db.events, EventBytes);
    var candidates := Candidates(db, cutoff, bytes > MAX_DESKTOP_BYTES);
    if |candidates| > MAINTENANCE_BATCH {
      CandidatesAreThose(db, cutoff, bytes > MAX_DESKTOP_BYTES);
      var batch := Take(candidates, MAINTENANCE_BATCH);
      assert forall r :: r in batch ==> r in candidates;
      SomethingIsSelected(batch, db.events, cutoff, bytes);
    }
  }

  /** A final event is allowed to stay: recent, among the newest, and the payload total fits. */
  ghost predicate WithinHistoryBounds(db: Db, cutoff: int) {
    && (forall r :: r in db.events && Terminal(db.outbox, r) ==> !Outdated(r, db.events, cutoff))
    && (Sum(db.events, EventBytes) <= MAX_DESKTOP_BYTES || forall r :: r in db.events ==> !Terminal(db.outbox, r))
    && (forall g :: g in db.gaps ==> !GapOutdated(g, db.gaps, cutoff))
  }

  ghost predicate TombstonesWithinBounds(tombstones: seq<Tombstone>, cutoff: int) {
    forall t :: t in tombstones ==> !TombstoneOutdated(t, tombstones, cutoff)
  }

  /** No work remaining means the bounds hold, for tombstones as for history. */
  lemma FinishedMaintenanceIsWithinBounds(db: Db, historyNow: int, tombstoneNow: int)
    requires Sound(db) && !MaintainHistory(db, historyNow, tombstoneNow).1.remainingWork
    ensures WithinHistoryBounds(MaintainHistory(db, historyNow, tombstoneNow).0, historyNow - HISTORY_RETENTION)
    ensures TombstonesWithinBounds(MaintainHistory(db, historyNow, tombstoneNow).0.tombstones, tombstoneNow - HISTORY_RETENTION)
  {
    hide PruneEvents, OutdatedGaps, OutdatedTombstones, Candidates, Filter, Sum, CountNewer, Select;
    hide WithinCheckpoint, CursorsSound, TracesDistinct, OutboxSound;
    var after := MaintainHistory(db, historyNow, tombstoneNow).0;
    var cutoff, bytes := historyNow - HISTORY_RETENTION, Sum(db.events, EventBytes);
    var candidates := Candidates(db, cutoff, bytes > MAX_DESKTOP_BYTES);
    var selection := SelectedEvents(db, historyNow);
    MaintenanceReportIsExact(db, historyNow, tombstoneNow);
    MaintenanceIsSafe(db, historyNow, tombstoneNow);
    CandidatesAreThose(db, cutoff, bytes > MAX_DESKTOP_BYTES);
    SelectSubset(candidates, db.events, cutoff, bytes);
    SelectedEventsAreCandidates(db, historyNow);
    PruneEventsSound(db, selection.selected, tombstoneNow);
    assert Take(candidates, MAINTENANCE_BATCH) == candidates;
    forall r | r in after.events && Terminal(after.outbox, r)
      ensures !Outdated(r, after.events, cutoff)
      ensures Sum(after.events, EventBytes) <= MAX_DESKTOP_BYTES
    {
      assert Terminal(db.outbox, r);
      assert CountNewer(after.events, EventAge, r) <= CountNewer(db.events, EventAge, r);
      if r in candidates {
        SurvivorsAreWithinBudget(candidates, db.events, cutoff, bytes, r);
      }
    }
    var pruned := PruneEvents(db, selection.selected, tombstoneNow);
    OutdatedGapsAreThose(pruned.gaps, cutoff);
    OutdatedTombstonesAreThose(pruned.tombstones, tombstoneNow - HISTORY_RETENTION);
    var oldGaps := OutdatedGaps(pruned.gaps, cutoff);
    forall g | g in after.gaps ensures !GapOutdated(g, after.gaps, cutoff) {
      assert g in oldGaps ==> g.id in Ids(oldGaps, GapRowId);
      assert !GapOutdated(g, pruned.gaps, cutoff);
      DeletionOnlyRaisesRank(pruned.gaps, GapRowId, Ids(oldGaps, GapRowId), GapAge, g);
    }
    var graveCutoff := tombstoneNow - HISTORY_RETENTION;
    var oldGraves := OutdatedTombstones(pruned.tombstones, graveCutoff);
    forall t | t in after.tombstones ensures !TombstoneOutdated(t, after.tombstones, graveCutoff) {
      assert t in oldGraves ==> t.id in Ids(oldGraves, TombstoneId);
      assert !TombstoneOutdated(t, pruned.tombstones, graveCutoff);
      DeletionOnlyRaisesRank(pruned.tombstones, TombstoneId, Ids(oldGraves, TombstoneId), TombstoneAge, t);
    }
  }

  // ---- Retention in plain terms ----

  /** The events received later than this one, or at the same instant under a larger identifier. */
  ghost function NewerEvents(rows: seq<EventRow>, row: EventRow): set<EventRow> {
    set r | r in rows && (r.receivedAt > row.receivedAt || (r.receivedAt == row.receivedAt && r.id > row.id))
  }

  ghost function NewerGaps(rows: seq<GapRow>, row: GapRow): set<GapRow> {
    set r | r in rows && (r.receivedAt > row.receivedAt || (r.receivedAt == row.receivedAt && r.id > row.id))
  }

  ghost function NewerThan(rows: seq<Tombstone>, createdAt: int, id: int): set<Tombstone> {
    set t | t in rows && (t.createdAt > createdAt || (t.createdAt == createdAt && t.id > id))
  }

  ghost function NewerBy<T(!new)>(rows: seq<T>, age: T -> Key, row: T): set<T> {
    set r | r in rows && Before(age(row), age(r))
  }

  lemma NewerByNothing<T(!new)>(age: T -> Key, row: T)
    ensures NewerBy([], age, row) == {}
  {
  }

  lemma NewerByOneMore<T(!new)>(rows: seq<T>, age: T -> Key, row: T, last: T)
    requires last !in rows
    ensures |NewerBy(rows + [last], age, row)| == |NewerBy(rows, age, row)| + if Before(age(row), age(last)) then 1 else 0
  {
    hide Before;
    var before := NewerBy(rows, age, row);
    assert NewerBy(rows + [last], age, row) == if Before(age(row), age(last)) then before + {last} else before;
  }

  /** A row's recency rank is the number of rows newer than it. */
  lemma {:induction false} RankIsNewerRows<T(!new)>(rows: seq<T>, age: T -> Key, row: T)
    requires Distinct(rows)
    ensures CountNewer(rows, age, row) == |NewerBy(rows, age, row)|
  {
    hide Before, NewerBy;
    if rows == [] {
      NewerByNothing(age, row);
    } else {
      var m := |rows| - 1;
      RankIsNewerRows(rows[..m], age, row);
      assert rows[m] !in rows[..m];
      NewerByOneMore(rows[..m], age, row, rows[m]);
      assert rows[..m] + [rows[m]] == rows;
    }
  }

  lemma EventRank(rows: seq<EventRow>, row: EventRow)
    requires Ascending(rows, EventRowId)
    ensures CountNewer(rows, EventAge, row) == |NewerEvents(rows, row)|
  {
    hide CountNewer;
    AscendingDistinct(rows, EventRowId);
    RankIsNewerRows(rows, EventAge, row);
    assert NewerBy(rows, EventAge, row) == NewerEvents(rows, row);
  }

  lemma GapRank(rows: seq<GapRow>, row: GapRow)
    requires Ascending(rows, GapRowId)
    ensures CountNewer(rows, GapAge, row) == |NewerGaps(rows, row)|
  {
    hide CountNewer;
    AscendingDistinct(rows, GapRowId);
    RankIsNewerRows(rows, GapAge, row);
    assert NewerBy(rows, GapAge, row) == NewerGaps(rows, row);
  }

  lemma TombstoneRank(rows: seq<Tombstone>, t: Tombstone)
    requires Ascending(rows, TombstoneId)
    ensures CountNewer(rows, TombstoneAge, t) == |NewerThan(rows, t.createdAt, t.id)|
  {
    hide CountNewer;
    AscendingDistinct(rows, TombstoneId);
    RankIsNewerRows(rows, TombstoneAge, t);
    assert NewerBy(rows, TombstoneAge, t) == NewerThan(rows, t.createdAt, t.id);
  }

  /** Its notification has been delivered, suppressed or given up. */
  ghost predicate Closed(outbox: seq<OutboxRow>, row: EventRow) {
    exists o :: o in outbox && o.eventRow == row.id
                && (o.state.Delivered? || o.state.Suppressed? || o.state.FailedTerminal?)
  }

  /** Received more than 30 days before this instant, or no longer among the newest 10,000. */
  ghost predicate PastRetention(rows: seq<EventRow>, row: EventRow, now: int) {
    row.receivedAt < now - 30 * 24 * 3600 * 1000 || |NewerEvents(rows, row)| >= 10_000
  }

  ghost predicate GapPastRetention(rows: seq<GapRow>, row: GapRow, now: int) {
    row.receivedAt < now - 30 * 24 * 3600 * 1000 || |NewerGaps(rows, row)| >= 10_000
  }

  /**
   * An event leaves history only once its notification is settled, and only past 30 days, behind 10,000 newer ones,
   * or while the payloads exceed 128 MiB; a recorded gap only past 30 days or behind 10,000 newer ones.
   */
  lemma HistoryLeavesOnlyForCause(db: Db, historyNow: int, tombstoneNow: int)
    requires Sound(db)
    ensures var after := MaintainHistory(db, historyNow, tombstoneNow).0;
            && (forall r :: r in db.events && r !in after.events ==>
                  && Closed(db.outbox, r)
                  && (PastRetention(db.events, r, historyNow) || Sum(db.events, EventBytes) > 134_217_728))
            && (forall g :: g in db.gaps && g !in after.gaps ==> GapPastRetention(db.gaps, g, historyNow))
  {
    hide PruneEvents, SelectedEvents, OutdatedGaps, OutdatedTombstones, Candidates, Filter, Sum, CountNewer, Without;
    hide WithinCheckpoint, CursorsSound, TracesDistinct, OutboxSound, Terminal, Closed, NewerEvents, NewerGaps;
    var after := MaintainHistory(db, historyNow, tombstoneNow).0;
    var selected := SelectedEvents(db, historyNow).selected;
    SelectedEventsAreCandidates(db, historyNow);
    PruneEventsSound(db, selected, tombstoneNow);
    forall r | r in db.events && r !in after.events
      ensures Closed(db.outbox, r)
      ensures PastRetention(db.events, r, historyNow) || Sum(db.events, EventBytes) > 134_217_728
    {
      SelectedForCause(db, historyNow, r);
      EventRank(db.events, r);
      TerminalIsClosed(db.outbox, r);
    }
    OutdatedGapsAreThose(db.gaps, historyNow - HISTORY_RETENTION);
    var gone := OutdatedGaps(db.gaps, historyNow - HISTORY_RETENTION);
    forall g | g in db.gaps && g !in after.gaps ensures GapPastRetention(db.gaps, g, historyNow) {
      GoneById(db.gaps, gone, g);
      GapRank(db.gaps, g);
    }
  }

  /** A batch takes at most 512 rows of each kind and says that work remains when it may have stopped for that. */
  lemma BatchesAreBounded(db: Db, historyNow: int, tombstoneNow: int)
    requires Sound(db)
    ensures var report := MaintainHistory(db, historyNow, tombstoneNow).1;
            && 0 <= report.eventsPruned <= 512 && 0 <= report.gapsPruned <= 512 && 0 <= report.tombstonesPruned <= 512
            && (report.remainingWork <==>
                  || report.gapsPruned == 512 || report.tombstonesPruned == 512
                  || |Candidates(db, historyNow - HISTORY_RETENTION, Sum(db.events, EventBytes) > 134_217_728)| > 512)
  {
    hide PruneEvents, Candidates, Filter, Sum, CountNewer, Select, Sort, WithinCheckpoint, CursorsSound, TracesDistinct, OutboxSound;
    var cutoff, bytes := historyNow - HISTORY_RETENTION, Sum(db.events, EventBytes);
    CandidatesAreThose(db, cutoff, bytes > MAX_DESKTOP_BYTES);
    var batch := Take(Candidates(db, cutoff, bytes > MAX_DESKTOP_BYTES), MAINTENANCE_BATCH);
    SelectNoMore(batch, db.events, cutoff, bytes);
  }

  lemma {:induction false} SelectNoMore(candidates: seq<EventRow>, rows: seq<EventRow>, cutoff: int, bytes: int)
    ensures |Select(candidates, rows, cutoff, bytes).selected| <= |candidates|
  {
    if candidates != [] { SelectNoMore(candidates[..|candidates| - 1], rows, cutoff, bytes); }
  }

  lemma GoneById(rows: seq<GapRow>, gone: seq<GapRow>, g: GapRow)
    requires Ascending(rows, GapRowId) && (forall x :: x in gone ==> x in rows)
    requires g in rows && g !in Without(rows, GapRowId, Ids(gone, GapRowId))
    ensures g in gone
  {
    assert g.id in Ids(gone, GapRowId);
    var x :| x in gone && GapRowId(x) == g.id;
    AscendingUnique(rows, GapRowId, x, g);
  }

  lemma TerminalIsClosed(outbox: seq<OutboxRow>, row: EventRow)
    ensures Terminal(outbox, row) <==> Closed(outbox, row)
  {
  }

  lemma SelectedForCause(db: Db, historyNow: int, r: EventRow)
    requires RowIdsSound(db) && r in SelectedEvents(db, historyNow).selected
    ensures Terminal(db.outbox, r)
    ensures Outdated(r, db.events, historyNow - HISTORY_RETENTION) || Sum(db.events, EventBytes) > MAX_DESKTOP_BYTES
  {
    hide Select, Sum, Filter, Sort, CountNewer, Candidates;
    var bytes, cutoff := Sum(db.events, EventBytes), historyNow - HISTORY_RETENTION;
    var all := Candidates(db, cutoff, bytes > MAX_DESKTOP_BYTES);
    CandidatesAreThose(db, cutoff, bytes > MAX_DESKTOP_BYTES);
    SelectSubset(Take(all, MAINTENANCE_BATCH), db.events, cutoff, bytes);
    var i :| 0 <= i < |Take(all, MAINTENANCE_BATCH)| && Take(all, MAINTENANCE_BATCH)[i] == r;
    assert all[i] == r && r in all;
    assert IsCandidate(db, cutoff, bytes > MAX_DESKTOP_BYTES, r);
  }

  /** Once no work remains, no settled event is past retention and the payloads fit, or nothing settled is left. */
  lemma FinishedMaintenanceRetains(db: Db, historyNow: int, tombstoneNow: int)
    requires Sound(db) && !MaintainHistory(db, historyNow, tombstoneNow).1.remainingWork
    ensures var after := MaintainHistory(db, historyNow, tombstoneNow).0;
            && (forall r :: r in after.events && Closed(after.outbox, r) ==>
                  !PastRetention(after.events, r, historyNow) && Sum(after.events, EventBytes) <= 134_217_728)
            && (forall g :: g in after.gaps ==> !GapPastRetention(after.gaps, g, historyNow))
            && (forall t :: t in after.tombstones ==>
                  && t.createdAt >= tombstoneNow - 30 * 24 * 3600 * 1000
                  && |NewerThan(after.tombstones, t.createdAt, t.id)| < 10_000)
  {
    hide MaintainHistory, CountNewer, WithinCheckpoint, CursorsSound, TracesDistinct, OutboxSound, Terminal, Closed, NewerEvents, NewerGaps, NewerThan, Sum;
    FinishedMaintenanceIsWithinBounds(db, historyNow, tombstoneNow);
    MaintenanceIsSafe(db, historyNow, tombstoneNow);
    var after := MaintainHistory(db, historyNow, tombstoneNow).0;
    forall r | r in after.events && Closed(after.outbox, r)
      ensures !PastRetention(after.events, r, historyNow) && Sum(after.events, EventBytes) <= 134_217_728
    {
      TerminalIsClosed(after.outbox, r);
      EventRank(after.events, r);
    }
    forall g | g in after.gaps ensures !GapPastRetention(after.gaps, g, historyNow) {
      GapRank(after.gaps, g);
    }
    forall t | t in after.tombstones
      ensures t.createdAt >= tombstoneNow - 30 * 24 * 3600 * 1000 && |NewerThan(after.tombstones, t.createdAt, t.id)| < 10_000
    {
      TombstoneRank(after.tombstones, t);
    }
  }

  /** Among settled events within retention the ones received earliest leave first. */
  lemma EarliestReceivedLeavesFirst(db: Db, historyNow: int, tombstoneNow: int, kept: EventRow, gone: EventRow)
    requires Sound(db) && kept in db.events && gone in db.events && Closed(db.outbox, kept)
    requires var after := MaintainHistory(db, historyNow, tombstoneNow).0; kept in after.events && gone !in after.events
    ensures PastRetention(db.events, gone, historyNow) || gone.receivedAt < kept.receivedAt
         || (gone.receivedAt == kept.receivedAt && gone.id < kept.id)
  {
    hide PruneEvents, OutdatedGaps, OutdatedTombstones, Filter, Sum, CountNewer, Without, Select, Sort;
    hide WithinCheckpoint, CursorsSound, TracesDistinct, OutboxSound, Terminal, Closed, NewerEvents;
    var selected := SelectedEvents(db, historyNow).selected;
    SelectedEventsAreCandidates(db, historyNow);
    PruneEventsSound(db, selected, tombstoneNow);
    EventRank(db.events, gone);
    TerminalIsClosed(db.outbox, kept);
    if !PastRetention(db.events, gone, historyNow) {
      var cutoff, bytes := historyNow - HISTORY_RETENTION, Sum(db.events, EventBytes);
      SelectedForCause(db, historyNow, gone);
      CandidatesAreThose(db, cutoff, bytes > MAX_DESKTOP_BYTES);
      var all := Candidates(db, cutoff, bytes > MAX_DESKTOP_BYTES);
      var batch := Take(all, MAINTENANCE_BATCH);
      SelectSubset(batch, db.events, cutoff, bytes);
      assert kept in all;
      BatchIsOldest(all, batch, kept, gone);
      if kept in batch { OldestGoFirst(batch, db.events, cutoff, bytes, kept, gone); }
      IdsTellApart(db.events, kept, gone);
    }
  }

  lemma BatchIsOldest(all: seq<EventRow>, batch: seq<EventRow>, kept: EventRow, gone: EventRow)
    requires Sorted(all, EventAge) && Distinct(all) && batch == Take(all, MAINTENANCE_BATCH)
    requires kept in all && gone in batch
    ensures Sorted(batch, EventAge) && Distinct(batch)
    ensures kept !in batch ==> !Before(EventAge(kept), EventAge(gone))
  {
    hide Before;
    var i :| 0 <= i < |all| && all[i] == kept;
    var j :| 0 <= j < |batch| && batch[j] == gone;
    if kept !in batch {
      assert forall k :: 0 <= k < |batch| ==> batch[k] == all[k] && all[k] != kept;
      assert all[j] == gone && j < i;
    }
  }

  lemma IdsTellApart(rows: seq<EventRow>, a: EventRow, b: EventRow)
    requires Ascending(rows, EventRowId) && a in rows && b in rows && a != b
    ensures a.id != b.id
  {
    if a.id == b.id { AscendingUnique(rows, EventRowId, a, b); }
  }
}
