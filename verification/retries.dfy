/** How often and how fast an outbox item can fail over a whole run. */
module Retries {
  import opened Base
  import opened Events
  import opened Rows
  import opened Tables
  import opened History
  import opened Notification
  import opened Dispatch
  import opened Runs

  /** failures(id): when the notifier failed retryably for the item, since it was queued or last requeued. */
  datatype RetryWorld = RetryWorld(db: Db, failures: int -> seq<int>)

  predicate FailsRetryably(before: OutboxRow, after: OutboxRow) {
    after.state.FailedRetryable? && after.attempts == before.attempts + 1
  }

  ghost predicate FailsIn(before: seq<OutboxRow>, after: seq<OutboxRow>, id: int) {
    |after| == |before|
    && exists i :: 0 <= i < |before| && before[i].id == id && FailsRetryably(before[i], after[i])
  }

  ghost predicate RequeuedIn(outbox: seq<OutboxRow>, id: int) {
    exists o :: o in outbox && o.id == id && PermissionSuppressed(o)
  }

  ghost function RetryStep(w: RetryWorld, op: Op): RetryWorld {
    var after := Apply(w.db, op);
    RetryWorld(
      after,
      match op
      case DispatchRound(round) =>
        ((id: int) => if FailsIn(w.db.outbox, after.outbox, id) then w.failures(id) + [round.now] else w.failures(id))
      case Requeue(_) =>
        ((id: int) => if RequeuedIn(w.db.outbox, id) then [] else w.failures(id))
      case Ingest(_, _, _, _, _) =>
        ((id: int) => if |after.outbox| > |w.db.outbox| && id == NextId(w.db.outbox, OutboxId) then [] else w.failures(id))
      case _ => w.failures)
  }

  ghost function RetryRun(ops: seq<Op>): RetryWorld {
    if ops == [] then RetryWorld(EMPTY_DATABASE, (id: int) => [])
    else RetryStep(RetryRun(ops[..|ops| - 1]), ops[|ops| - 1])
  }

  /** Consecutive failures are separated by the back-off that the earlier one imposed. */
  ghost predicate BackedOff(failures: seq<int>) {
    forall i :: 0 <= i < |failures| - 1 ==> failures[i + 1] - failures[i] >= RetryDelay(i)
  }

  ghost predicate RetriesOk(row: OutboxRow, failures: seq<int>) {
    && |failures| <= MAX_NOTIFICATION_ATTEMPTS
    && BackedOff(failures)
    && 0 <= row.attempts <= |failures| + 1
    && (Active(row.state) ==> row.attempts == |failures|)
    && (Active(row.state) && failures != [] ==>
          row.nextAttemptAt >= failures[|failures| - 1] + RetryDelay(|failures| - 1))
  }

  ghost predicate AllRetriesOk(w: RetryWorld) {
    forall o :: o in w.db.outbox ==> RetriesOk(o, w.failures(o.id))
  }

  /** One settled item: at most five failures, spaced by their delays, deferrals included. */
  lemma SettledRetriesOk(row: OutboxRow, failures: seq<int>, round: Round, delivery: Delivery, event: EventRow)
    requires RetriesOk(row, failures) && Active(row.state) && row.nextAttemptAt <= round.now
    ensures var after := Settled(row, VerdictIn(round, delivery, Item(row, event)), round.now);
            RetriesOk(after, if FailsRetryably(row, after) then failures + [round.now] else failures)
  {
    hide FindOutcome, Decide;
  }

  lemma RowAfterRetriesOk(row: OutboxRow, failures: seq<int>, events: seq<EventRow>, high: int, delivery: Delivery, round: Round)
    requires RetriesOk(row, failures)
    ensures var after := RowAfter(row, events, high, delivery, round);
            RetriesOk(after, if FailsRetryably(row, after) then failures + [round.now] else failures)
  {
    hide FindEvent, RetriesOk, VerdictFor, Settled;
    if Due(row, high, round.now) && FindEvent(events, row.eventRow).Some? {
      SettledRetriesOk(row, failures, round, delivery, FindEvent(events, row.eventRow).value);
    }
  }

  lemma DispatchRetriesOk(w: RetryWorld, op: Op)
    requires Sound(w.db) && AllRetriesOk(w) && op.DispatchRound?
    ensures AllRetriesOk(RetryStep(w, op))
  {
    hide RetriesOk, FailsRetryably, RowAfter, DeliveryIn, WithinCheckpoint, CursorsSound, TracesDistinct, OutboxSound;
    var next := RetryStep(w, op);
    var before, after := w.db.outbox, next.db.outbox;
    forall o | o in after ensures RetriesOk(o, next.failures(o.id)) {
      var i :| 0 <= i < |after| && after[i] == o;
      assert before[i] in before;
      var high := HighWatermark(before, op.round.now);
      if high.Some? {
        RowAfterRetriesOk(before[i], w.failures(before[i].id), w.db.events, high.value, DeliveryIn(w.db, high.value, op.round), op.round);
        RowAfterKeepsId(before[i], w.db.events, high.value, DeliveryIn(w.db, high.value, op.round), op.round);
      } else {
        NoFailureWithoutChange(before[i]);
      }
      FailsInAt(before, after, i);
    }
  }

  lemma NoFailureWithoutChange(row: OutboxRow)
    ensures !FailsRetryably(row, row)
  {
  }

  lemma RowAfterKeepsId(row: OutboxRow, events: seq<EventRow>, high: int, delivery: Delivery, round: Round)
    ensures RowAfter(row, events, high, delivery, round).id == row.id
  {
  }

  /** Identifiers are unique, so the failure of an item is the failure of its row. */
  lemma FailsInAt(before: seq<OutboxRow>, after: seq<OutboxRow>, i: nat)
    requires Ascending(before, OutboxId) && |after| == |before| && i < |before|
    ensures FailsIn(before, after, before[i].id) <==> FailsRetryably(before[i], after[i])
  {
    if FailsIn(before, after, before[i].id) {
      var j :| 0 <= j < |before| && before[j].id == before[i].id && FailsRetryably(before[j], after[j]);
      AscendingIndex(before, OutboxId, i, j);
    }
  }

  lemma RequeueRetriesOk(w: RetryWorld, op: Op)
    requires Sound(w.db) && AllRetriesOk(w) && op.Requeue?
    ensures AllRetriesOk(RetryStep(w, op))
  {
    hide WithinCheckpoint, CursorsSound, TracesDistinct, OutboxSound;
    var next := RetryStep(w, op);
    forall o | o in next.db.outbox ensures RetriesOk(o, next.failures(o.id)) {
      var i :| 0 <= i < |next.db.outbox| && next.db.outbox[i] == o;
      var row := w.db.outbox[i];
      assert row in w.db.outbox && o == RequeuedRow(row, op.now);
      forall p | p in w.db.outbox && p.id == row.id ensures p == row {
        AscendingUnique(w.db.outbox, OutboxId, p, row);
      }
    }
  }

  lemma IngestRetriesOk(w: RetryWorld, op: Op)
    requires Sound(w.db) && AllRetriesOk(w) && op.Ingest?
    ensures AllRetriesOk(RetryStep(w, op))
  {
    hide IngestEvent, WithinCheckpoint, CursorsSound, TracesDistinct, OutboxSound, Insertable, RetriesOk;
    IngestInsertsOnlyNext(w.db, op.key, op.sequence, op.event, op.bytes, op.receivedAt);
    NewItemRetriesOk();
    forall o | o in w.db.outbox ensures o.id != NextId(w.db.outbox, OutboxId) {
      var i :| 0 <= i < |w.db.outbox| && w.db.outbox[i] == o;
      if i < |w.db.outbox| - 1 {
        assert OutboxId(w.db.outbox[i]) < OutboxId(w.db.outbox[|w.db.outbox| - 1]);
      }
    }
  }

  lemma NewItemRetriesOk()
    ensures forall o: OutboxRow :: o.state.Pending? && o.attempts == 0 ==> RetriesOk(o, [])
  {
  }

  lemma OtherOpsOnlyDropItems(db: Db, op: Op)
    requires Sound(db) && !op.DispatchRound? && !op.Requeue? && !op.Ingest?
    ensures forall o :: o in Apply(db, op).outbox ==> o in db.outbox
  {
    hide Sound, MaintainHistory;
    if op.Maintain? {
      MaintenanceIsSafe(db, op.historyNow, op.tombstoneNow);
    }
  }

  lemma {:induction false} EveryRunBoundsRetries(ops: seq<Op>)
    ensures Sound(RetryRun(ops).db) && AllRetriesOk(RetryRun(ops))
  {
    if ops != [] {
      hide Sound, Apply, RetriesOk;
      var w, op := RetryRun(ops[..|ops| - 1]), ops[|ops| - 1];
      EveryRunBoundsRetries(ops[..|ops| - 1]);
      EveryOpKeepsSound(w.db, op);
      if op.DispatchRound? {
        DispatchRetriesOk(w, op);
      } else if op.Requeue? {
        RequeueRetriesOk(w, op);
      } else if op.Ingest? {
        IngestRetriesOk(w, op);
      } else {
        OtherOpsOnlyDropItems(w.db, op);
      }
    } else {
      EmptyIsSound();
    }
  }

  /**
   * Retry bound over whole runs: between permission requeues an item meets at most five retryable failures,
   * its attempt count never exceeds six, and five failures span at least 755 seconds.
   */
  lemma RetryBound(ops: seq<Op>, row: OutboxRow)
    requires row in RetryRun(ops).db.outbox
    ensures var failures := RetryRun(ops).failures(row.id);
            && |failures| <= 5
            && 0 <= row.attempts <= 6
            && (|failures| == 5 ==> failures[4] - failures[0] >= 755_000)
            && (|failures| == 5 && Active(row.state) ==> row.attempts >= MAX_NOTIFICATION_ATTEMPTS)
  {
    EveryRunBoundsRetries(ops);
    var failures := RetryRun(ops).failures(row.id);
    if |failures| == 5 {
      assert failures[0 + 1] - failures[0] >= RetryDelay(0);
      assert failures[1 + 1] - failures[1] >= RetryDelay(1);
      assert failures[2 + 1] - failures[2] >= RetryDelay(2);
      assert failures[3 + 1] - failures[3] >= RetryDelay(3);
    }
  }

  /** The sixth look at an item is its last: once five attempts are used up, the next dispatch ends it. */
  lemma ExhaustedItemBecomesTerminal(row: OutboxRow, event: EventRow, round: Round, delivery: Delivery)
    requires row.attempts >= MAX_NOTIFICATION_ATTEMPTS
    ensures Settled(row, VerdictIn(round, delivery, Item(row, event)), round.now).state.FailedTerminal?
  {
  }
}
