/** What one outbox dispatch does to every item of its window. */
module Dispatch {
  import opened Base
  import opened Events
  import opened Rows
  import opened Ordering
  import opened Deletion
  import opened Tables
  import opened History
  import opened Notification

  const OUTBOX_PAGE_SIZE := 100
  const MAX_NOTIFICATION_ATTEMPTS := 5
  const MINUTE := 60 * 1000

  function RetryDelay(attempts: int): int {
    if attempts <= 0 then 5_000
    else if attempts == 1 then 30_000
    else if attempts == 2 then 120_000
    else if attempts == 3 then 600_000
    else 1_800_000
  }

  // ---- Durable transitions ----

  datatype OutboxOutcome =
    | DeliveredNow
    | SuppressedFor(reason: Reason)
    | RetryFor(reason: Reason)
    | FailedFor(reason: Reason)

  function FindOutbox(outbox: seq<OutboxRow>, id: int): (r: Option<OutboxRow>)
    ensures r.Some? ==> r.value in outbox && r.value.id == id
    ensures r.None? ==> forall o :: o in outbox ==> o.id != id
  {
    if outbox == [] then None
    else if outbox[|outbox| - 1].id == id then Some(outbox[|outbox| - 1])
    else FindOutbox(outbox[..|outbox| - 1], id)
  }

  function PutOutbox(outbox: seq<OutboxRow>, row: OutboxRow): seq<OutboxRow> {
    seq(|outbox|, i requires 0 <= i < |outbox| => if outbox[i].id == row.id then row else outbox[i])
  }

  function FinishedRow(row: OutboxRow, outcome: OutboxOutcome, now: int): OutboxRow {
    match outcome
    case DeliveredNow => row.(state := Delivered, reason := None, nextAttemptAt := now)
    case SuppressedFor(reason) => row.(state := Suppressed, reason := Some(reason), nextAttemptAt := now)
    case RetryFor(reason) =>
      row.(state := FailedRetryable, reason := Some(reason), attempts := row.attempts + 1,
           nextAttemptAt := now + RetryDelay(row.attempts))
    case FailedFor(reason) =>
      row.(state := FailedTerminal, reason := Some(reason), attempts := row.attempts + 1, nextAttemptAt := now)
  }

  function FinishOutbox(db: Db, id: int, outcome: OutboxOutcome, now: int): Transaction<()> {
    match FindOutbox(db.outbox, id)
    case None => Transaction(db, Err(OutboxNotPending(id)))
    case Some(row) =>
      if !Active(row.state) then Transaction(db, Err(OutboxNotPending(id)))
      else Transaction(db.(outbox := PutOutbox(db.outbox, FinishedRow(row, outcome, now))), Ok(()))
  }

  function DeferOutbox(db: Db, id: int, nextAttemptAt: int): Transaction<()> {
    match FindOutbox(db.outbox, id)
    case None => Transaction(db, Err(OutboxNotPending(id)))
    case Some(row) =>
      if !Active(row.state) then Transaction(db, Err(OutboxNotPending(id)))
      else Transaction(db.(outbox := PutOutbox(db.outbox, row.(nextAttemptAt := nextAttemptAt))), Ok(()))
  }

  predicate PermissionSuppressed(row: OutboxRow) {
    row.state.Suppressed? && row.reason == Some(PermissionDenied)
  }

  function RequeuedRow(row: OutboxRow, now: int): OutboxRow {
    if PermissionSuppressed(row) then row.(state := Pending, reason := None, attempts := 0, nextAttemptAt := now) else row
  }

  function RequeuePermissionSuppressed(db: Db, now: int): Db {
    db.(outbox := seq(|db.outbox|, i requires 0 <= i < |db.outbox| => RequeuedRow(db.outbox[i], now)))
  }

  // ---- The window ----

  datatype Item = Item(row: OutboxRow, event: EventRow)

  predicate Due(row: OutboxRow, high: int, now: int) {
    Active(row.state) && row.nextAttemptAt <= now && row.id <= high
  }

  function FindEvent(events: seq<EventRow>, id: int): (r: Option<EventRow>)
    ensures r.Some? ==> r.value in events && r.value.id == id
    ensures r.None? ==> forall e :: e in events ==> e.id != id
  {
    if events == [] then None
    else if events[|events| - 1].id == id then Some(events[|events| - 1])
    else FindEvent(events[..|events| - 1], id)
  }

  /** MAX(id) of the due rows, or None when nothing is due. */
  function HighWatermark(outbox: seq<OutboxRow>, now: int): (r: Option<int>)
    ensures r.None? <==> forall o :: o in outbox ==> !(Active(o.state) && o.nextAttemptAt <= now)
    ensures r.Some? ==> forall o :: o in outbox && Active(o.state) && o.nextAttemptAt <= now ==> o.id <= r.value
  {
    if outbox == [] then None
    else
      var last := outbox[|outbox| - 1];
      var before := HighWatermark(outbox[..|outbox| - 1], now);
      if Active(last.state) && last.nextAttemptAt <= now
      then Some(if before.Some? then Max(before.value, last.id) else last.id)
      else before
  }

  function JoinDue(outbox: seq<OutboxRow>, events: seq<EventRow>, high: int, now: int): (r: seq<Item>)
    ensures forall item :: item in r <==>
              item.row in outbox && Due(item.row, high, now) && FindEvent(events, item.row.eventRow) == Some(item.event)
  {
    if outbox == [] then []
    else
      var last := outbox[|outbox| - 1];
      var before := JoinDue(outbox[..|outbox| - 1], events, high, now);
      if Due(last, high, now) && FindEvent(events, last.eventRow).Some?
      then before + [Item(last, FindEvent(events, last.eventRow).value)]
      else before
  }

  function Urgency(event: Event): int {
    if event.kind.AgentQuestion? then 0
    else if event.outcome == Some(Failed) || event.outcome == Some(Cancelled) then 1
    else 2
  }

  function ItemOrder(item: Item): Key {
    Key(Urgency(item.event.event), item.event.receivedAt, item.row.id)
  }

  /** The due items in dispatch order: questions, then failures, then the rest, oldest first. */
  function Window(db: Db, high: int, now: int): seq<Item> {
    Sort(JoinDue(db.outbox, db.events, high, now), ItemOrder)
  }

  function Page(db: Db, limit: nat, offset: nat, high: int, now: int): seq<Item> {
    var window := Window(db, high, now);
    if offset >= |window| then [] else Take(window[offset..], limit)
  }

  // ---- Decisions ----

  function ContextOf(item: Item, now: int, localMinute: Option<int>): Context {
    Context(item.event.receivedAt, now, localMinute, item.event.key == "local")
  }

  function DecideItem(policy: Policy, item: Item, now: int, localMinute: Option<int>): Decision {
    Decide(policy, item.event.event, item.event.localLabel, ContextOf(item, now, localMinute))
  }

  predicate Eligible(policy: Policy, item: Item, now: int, localMinute: Option<int>) {
    item.row.attempts < MAX_NOTIFICATION_ATTEMPTS && DecideItem(policy, item, now, localMinute).Notify?
  }

  /** The eligible items of a window prefix, in order, with their notices. */
  function EligibleOf(policy: Policy, items: seq<Item>, now: int, localMinute: Option<int>): seq<(int, Notice)> {
    if items == [] then []
    else
      var last := items[|items| - 1];
      var before := EligibleOf(policy, items[..|items| - 1], now, localMinute);
      if Eligible(policy, last, now, localMinute)
      then before + [(last.row.id, DecideItem(policy, last, now, localMinute).notice)]
      else before
  }

  datatype Delivery =
    | NoDelivery
    | Individually(outcomes: seq<(int, NotifyResult)>)
    | Summarised(outcome: NotifyResult)

  function Outcomes(eligible: seq<(int, Notice)>, answers: nat -> NotifyResult, first: nat): seq<(int, NotifyResult)> {
    seq(|eligible|, i requires 0 <= i < |eligible| => (eligible[i].0, answers(first + i)))
  }

  function Deliver(eligible: seq<(int, Notice)>, answers: nat -> NotifyResult, first: nat): Delivery {
    if |eligible| == 0 then NoDelivery
    else if |eligible| <= 3 then Individually(Outcomes(eligible, answers, first))
    else Summarised(answers(first))
  }

  /** The notices a dispatch shows: one per eligible item up to three, else a single summary. */
  function NoticesShown(eligible: seq<(int, Notice)>): seq<Notice> {
    if |eligible| <= 3 then seq(|eligible|, i requires 0 <= i < |eligible| => eligible[i].1)
    else [BacklogSummary(|eligible|)]
  }

  function FindOutcome(outcomes: seq<(int, NotifyResult)>, id: int): Option<NotifyResult> {
    if outcomes == [] then None
    else if outcomes[0].0 == id then Some(outcomes[0].1)
    else FindOutcome(outcomes[1..], id)
  }

  datatype Verdict = Finish(outcome: OutboxOutcome) | Defer(until: int) | IncompleteBatch

  function OutcomeOf(result: NotifyResult): OutboxOutcome {
    match result
    case None => DeliveredNow
    case Some(Denied) => SuppressedFor(PermissionDenied)
    case Some(Retryable) => RetryFor(NativeRetryable)
    case Some(TerminalFailure) => FailedFor(NativeTerminal)
  }

  function ReasonCode(reason: SuppressionReason): string {
    match reason
    case Paused => "paused"
    case CompletionDisabled => "completion_disabled"
    case QuestionDisabled => "question_disabled"
    case LocalApprovalPresented => "local_approval_presented"
    case Quiet => "quiet_hours"
    case CompletionExpired => "completion_expired"
  }

  function VerdictFor(policy: Policy, item: Item, delivery: Delivery, now: int, localMinute: Option<int>): Verdict {
    if item.row.attempts >= MAX_NOTIFICATION_ATTEMPTS then Finish(FailedFor(RetryLimitReached))
    else
      match DecideItem(policy, item, now, localMinute)
      case Suppress(Quiet) => Defer(now + MINUTE)
      case Suppress(reason) => Finish(SuppressedFor(ByPolicy(ReasonCode(reason))))
      case Notify(_) =>
        match delivery
        case NoDelivery => IncompleteBatch
        case Summarised(outcome) => Finish(OutcomeOf(outcome))
        case Individually(outcomes) =>
          match FindOutcome(outcomes, item.row.id)
          case None => IncompleteBatch
          case Some(outcome) => Finish(OutcomeOf(outcome))
  }

  function Settled(row: OutboxRow, verdict: Verdict, now: int): OutboxRow {
    match verdict
    case Finish(outcome) => FinishedRow(row, outcome, now)
    case Defer(until) => row.(nextAttemptAt := until)
    case IncompleteBatch => row
  }

  // ---- One dispatch ----

  datatype DispatchReport = DispatchReport(
    delivered: nat, suppressed: nat, retryableFailures: nat, terminalFailures: nat, deferred: nat)

  const NOTHING_DISPATCHED := DispatchReport(0, 0, 0, 0, 0)

  function Total(report: DispatchReport): nat {
    report.delivered + report.suppressed + report.retryableFailures + report.terminalFailures + report.deferred
  }

  function Counted(report: DispatchReport, verdict: Verdict): DispatchReport {
    match verdict
    case Finish(DeliveredNow) => report.(delivered := report.delivered + 1)
    case Finish(SuppressedFor(_)) => report.(suppressed := report.suppressed + 1)
    case Finish(RetryFor(_)) => report.(retryableFailures := report.retryableFailures + 1)
    case Finish(FailedFor(_)) => report.(terminalFailures := report.terminalFailures + 1)
    case Defer(_) => report.(deferred := report.deferred + 1)
    case IncompleteBatch => report
  }

  /** Everything a dispatch round is given besides the database. */
  datatype Round = Round(
    policy: Policy, now: int, localMinute: Option<int>, answers: nat -> NotifyResult, first: nat)

  function EligibleIn(db: Db, high: int, round: Round): seq<(int, Notice)> {
    EligibleOf(round.policy, Window(db, high, round.now), round.now, round.localMinute)
  }

  function DeliveryIn(db: Db, high: int, round: Round): Delivery {
    Deliver(EligibleIn(db, high, round), round.answers, round.first)
  }

  function VerdictIn(round: Round, delivery: Delivery, item: Item): Verdict {
    VerdictFor(round.policy, item, delivery, round.now, round.localMinute)
  }

  /** The row after the round: settled once if it was due, untouched otherwise. */
  function RowAfter(row: OutboxRow, events: seq<EventRow>, high: int, delivery: Delivery, round: Round): OutboxRow {
    if Due(row, high, round.now) && FindEvent(events, row.eventRow).Some?
    then Settled(row, VerdictIn(round, delivery, Item(row, FindEvent(events, row.eventRow).value)), round.now)
    else row
  }

  function DispatchWindow(db: Db, high: int, round: Round): Db {
    var delivery := DeliveryIn(db, high, round);
    db.(outbox := seq(|db.outbox|, i requires 0 <= i < |db.outbox| =>
                        RowAfter(db.outbox[i], db.events, high, delivery, round)))
  }

  /** dispatch_outbox as a whole. */
  function DispatchOutbox(db: Db, round: Round): Db {
    match HighWatermark(db.outbox, round.now)
    case None => db
    case Some(high) => DispatchWindow(db, high, round)
  }

  // ---- Facts ----

  lemma {:induction false} JoinDueDistinct(outbox: seq<OutboxRow>, events: seq<EventRow>, high: int, now: int)
    requires Ascending(outbox, OutboxId)
    ensures Distinct(JoinDue(outbox, events, high, now))
  {
    if outbox != [] {
      var m := |outbox| - 1;
      JoinDueDistinct(outbox[..m], events, high, now);
      forall item | item in JoinDue(outbox[..m], events, high, now) ensures item.row != outbox[m] {
        var k :| 0 <= k < m && outbox[k] == item.row;
        assert OutboxId(outbox[k]) < OutboxId(outbox[m]);
      }
    }
  }

  /** A window lists each due item with an event exactly once, and nothing else. */
  lemma WindowIsTheDueItems(db: Db, high: int, now: int)
    requires RowIdsSound(db)
    ensures var w := Window(db, high, now);
            && Distinct(w) && Sorted(w, ItemOrder)
            && (forall item :: item in w <==>
                  item.row in db.outbox && Due(item.row, high, now)
                  && FindEvent(db.events, item.row.eventRow) == Some(item.event))
            && (forall x, y :: x in w && y in w && x.row.id == y.row.id ==> x == y)
  {
    hide Sort;
    var joined := JoinDue(db.outbox, db.events, high, now);
    JoinDueDistinct(db.outbox, db.events, high, now);
    SortDistinct(joined, ItemOrder);
    SortMembers(joined, ItemOrder);
    SortSorted(joined, ItemOrder);
    forall x, y | x in joined && y in joined && x.row.id == y.row.id ensures x == y {
      AscendingUnique(db.outbox, OutboxId, x.row, y.row);
    }
  }

  /** A page is the next items of the window from its offset on: due, each once and in dispatch order. */
  lemma PageIsSliceOfWindow(db: Db, limit: nat, offset: nat, high: int, now: int)
    requires RowIdsSound(db)
    ensures var page, window := Page(db, limit, offset, high, now), Window(db, high, now);
            && |page| == Min(limit, Max(0, |window| - offset))
            && (forall i :: 0 <= i < |page| ==> page[i] == window[offset + i])
            && Distinct(page) && Sorted(page, ItemOrder)
            && forall item :: item in page ==> item.row in db.outbox && Due(item.row, high, now)
  {
    hide Window, Sort, Due, ItemOrder, RowIdsSound;
    WindowIsTheDueItems(db, high, now);
    var page, window := Page(db, limit, offset, high, now), Window(db, high, now);
    forall item | item in page ensures item in window {
      var i :| 0 <= i < |page| && page[i] == item;
      assert window[offset + i] == item;
    }
  }

  lemma {:induction false} EligibleOfContains(policy: Policy, items: seq<Item>, now: int, localMinute: Option<int>, item: Item)
    requires item in items && Eligible(policy, item, now, localMinute)
    ensures exists i :: 0 <= i < |EligibleOf(policy, items, now, localMinute)|
              && EligibleOf(policy, items, now, localMinute)[i].0 == item.row.id
  {
    var m := |items| - 1;
    var before := EligibleOf(policy, items[..m], now, localMinute);
    if item == items[m] {
      assert EligibleOf(policy, items, now, localMinute)[|before|].0 == item.row.id;
    } else {
      EligibleOfContains(policy, items[..m], now, localMinute, item);
      var i :| 0 <= i < |before| && before[i].0 == item.row.id;
      assert EligibleOf(policy, items, now, localMinute)[i] == before[i];
    }
  }

  lemma {:induction false} FindOutcomeFinds(outcomes: seq<(int, NotifyResult)>, id: int, i: nat)
    requires i < |outcomes| && outcomes[i].0 == id
    ensures FindOutcome(outcomes, id).Some?
  {
    if outcomes[0].0 != id {
      FindOutcomeFinds(outcomes[1..], id, i - 1);
    }
  }

  /** The batch always answers for every item it must: IncompleteBatch cannot come up. */
  lemma BatchIsComplete(db: Db, high: int, round: Round, item: Item)
    requires item in Window(db, high, round.now)
    ensures !VerdictIn(round, DeliveryIn(db, high, round), item).IncompleteBatch?
  {
    hide Window, FindOutcome, EligibleOf, Decide;
    var eligible := EligibleIn(db, high, round);
    if Eligible(round.policy, item, round.now, round.localMinute) {
      EligibleOfContains(round.policy, Window(db, high, round.now), round.now, round.localMinute, item);
      var i :| 0 <= i < |eligible| && eligible[i].0 == item.row.id;
      if |eligible| <= 3 {
        var outcomes := Outcomes(eligible, round.answers, round.first);
        assert outcomes[i].0 == item.row.id;
        FindOutcomeFinds(outcomes, item.row.id, i);
      }
    }
  }

  /** A settled item has left the window: it is final, or its next attempt lies in the future. */
  lemma SettledLeavesWindow(round: Round, delivery: Delivery, item: Item, high: int)
    requires Due(item.row, high, round.now) && !VerdictIn(round, delivery, item).IncompleteBatch?
    ensures var after := Settled(item.row, VerdictIn(round, delivery, item), round.now);
            !Due(after, high, round.now) && after != item.row
            && after.id == item.row.id && after.eventRow == item.row.eventRow && after.identifier == item.row.identifier
  {
  }

  /**
   * A dispatch settles each due item exactly once, empties the window it looked at, and touches nothing else.
   */
  lemma DispatchSettlesExactlyTheWindow(db: Db, high: int, round: Round)
    requires Sound(db) && HighWatermark(db.outbox, round.now) == Some(high)
    ensures var after := DispatchOutbox(db, round);
            && after == db.(outbox := after.outbox) && |after.outbox| == |db.outbox|
            && (forall i :: 0 <= i < |db.outbox| ==>
                  if Active(db.outbox[i].state) && db.outbox[i].nextAttemptAt <= round.now
                  then after.outbox[i] != db.outbox[i] && !Due(after.outbox[i], high, round.now)
                  else after.outbox[i] == db.outbox[i])
            && (forall i :: 0 <= i < |db.outbox| ==>
                  after.outbox[i].id == db.outbox[i].id && after.outbox[i].eventRow == db.outbox[i].eventRow)
            && Window(after, high, round.now) == []
  {
    hide Window, VerdictFor, Settled, WithinCheckpoint, CursorsSound, TracesDistinct, DeliveryIn;
    var after := DispatchOutbox(db, round);
    var delivery := DeliveryIn(db, high, round);
    forall i | 0 <= i < |db.outbox|
      ensures if Active(db.outbox[i].state) && db.outbox[i].nextAttemptAt <= round.now
              then after.outbox[i] != db.outbox[i] && !Due(after.outbox[i], high, round.now)
              else after.outbox[i] == db.outbox[i]
      ensures after.outbox[i].id == db.outbox[i].id && after.outbox[i].eventRow == db.outbox[i].eventRow
    {
      var row := db.outbox[i];
      if Due(row, high, round.now) {
        assert row in db.outbox;
        var event := FindEvent(db.events, row.eventRow);
        assert HasOutbox(db.outbox, row.eventRow) && HasEvent(db.events, row.eventRow);
        WindowIsTheDueItems(db, high, round.now);
        assert Item(row, event.value) in Window(db, high, round.now);
        BatchIsComplete(db, high, round, Item(row, event.value));
        SettledLeavesWindow(round, delivery, Item(row, event.value), high);
      }
    }
    NothingDueNothingJoined(after.outbox, after.events, high, round.now);
    EmptyWindow(after, high, round.now);
  }

  lemma {:induction false} NothingDueNothingJoined(outbox: seq<OutboxRow>, events: seq<EventRow>, high: int, now: int)
    requires forall i :: 0 <= i < |outbox| ==> !Due(outbox[i], high, now)
    ensures JoinDue(outbox, events, high, now) == []
  {
    if outbox != [] {
      NothingDueNothingJoined(outbox[..|outbox| - 1], events, high, now);
    }
  }

  lemma EmptyWindow(db: Db, high: int, now: int)
    requires JoinDue(db.outbox, db.events, high, now) == []
    ensures Window(db, high, now) == []
  {
  }

  /** A dispatch keeps every invariant of the database, whatever the platform answers. */
  lemma DispatchKeepsSound(db: Db, round: Round)
    requires Sound(db)
    ensures Sound(DispatchOutbox(db, round))
  {
    hide Window, RowAfter, WithinCheckpoint, CursorsSound, TracesDistinct, DeliveryIn;
    var high := HighWatermark(db.outbox, round.now);
    if high.Some? {
      DispatchSettlesExactlyTheWindow(db, high.value, round);
      var after := DispatchOutbox(db, round);
      SameRowsSameSoundness(db, after);
    }
  }

  ghost predicate SameRows(before: seq<OutboxRow>, after: seq<OutboxRow>) {
    |after| == |before|
    && forall i :: 0 <= i < |before| ==> after[i].id == before[i].id && after[i].eventRow == before[i].eventRow
  }

  /** Soundness reads only the identities of outbox rows, never their delivery state. */
  lemma SameRowsSameSoundness(db: Db, after: Db)
    requires Sound(db) && after == db.(outbox := after.outbox) && SameRows(db.outbox, after.outbox)
    ensures Sound(after)
  {
    hide OutboxSound;
    SameRowsSameOutbox(db, after);
    SameRowsSameOrder(db.outbox, after.outbox);
  }

  lemma SameRowsSameOrder(before: seq<OutboxRow>, after: seq<OutboxRow>)
    requires Ascending(before, OutboxId) && SameRows(before, after)
    ensures Ascending(after, OutboxId)
  {
    forall i, j | 0 <= i < j < |after| ensures OutboxId(after[i]) < OutboxId(after[j]) {
      assert OutboxId(before[i]) < OutboxId(before[j]);
    }
  }

  lemma SameRowsSameOutbox(db: Db, after: Db)
    requires OutboxSound(db) && RowIdsSound(db)
    requires after.events == db.events && SameRows(db.outbox, after.outbox)
    ensures OutboxSound(after)
  {
    forall id ensures HasEvent(after.events, id) <==> HasOutbox(after.outbox, id) {
      assert HasEvent(db.events, id) <==> HasOutbox(db.outbox, id);
      if HasOutbox(after.outbox, id) {
        var i :| 0 <= i < |after.outbox| && after.outbox[i].eventRow == id;
        assert db.outbox[i] in db.outbox;
      }
      if HasOutbox(db.outbox, id) {
        var i :| 0 <= i < |db.outbox| && db.outbox[i].eventRow == id;
        assert after.outbox[i] in after.outbox;
      }
    }
    forall o, p | o in after.outbox && p in after.outbox && o.eventRow == p.eventRow ensures o == p {
      var i :| 0 <= i < |after.outbox| && after.outbox[i] == o;
      var j :| 0 <= j < |after.outbox| && after.outbox[j] == p;
      OneRowPerEvent(db.outbox, i, j);
    }
  }

  lemma OneRowPerEvent(outbox: seq<OutboxRow>, i: nat, j: nat)
    requires i < |outbox| && j < |outbox| && outbox[i].eventRow == outbox[j].eventRow && Ascending(outbox, OutboxId)
    requires forall o, p :: o in outbox && p in outbox && o.eventRow == p.eventRow ==> o == p
    ensures i == j
  {
    assert outbox[i] in outbox && outbox[j] in outbox;
    assert OutboxId(outbox[i]) == OutboxId(outbox[j]);
  }

  /** Re-admitting denied notifications keeps every invariant. */
  lemma RequeueKeepsSound(db: Db, now: int)
    requires Sound(db)
    ensures Sound(RequeuePermissionSuppressed(db, now))
  {
    hide WithinCheckpoint, CursorsSound, TracesDistinct, RowIdsSound, OutboxSound;
    SameRowsSameSoundness(db, RequeuePermissionSuppressed(db, now));
  }

  /** Suppressed because the platform denied permission. */
  ghost predicate DeniedEarlier(row: OutboxRow) {
    row == row.(state := Suppressed, reason := Some(PermissionDenied))
  }

  /** Requeueing touches exactly the items suppressed for denied permission: they become due now with a clean record. */
  lemma RequeueIsExact(db: Db, now: int)
    ensures var after := RequeuePermissionSuppressed(db, now).outbox;
            && |after| == |db.outbox|
            && (forall i :: 0 <= i < |after| ==> !DeniedEarlier(after[i]))
            && (forall i :: 0 <= i < |after| && !DeniedEarlier(db.outbox[i]) ==> after[i] == db.outbox[i])
            && (forall i :: 0 <= i < |after| && DeniedEarlier(db.outbox[i]) ==>
                  Due(after[i], after[i].id, now) && !Due(after[i], after[i].id, now - 1)
                  && after[i].state.Pending? && after[i].reason.None? && after[i].attempts == 0
                  && after[i].identifier == db.outbox[i].identifier && after[i].id == db.outbox[i].id && after[i].eventRow == db.outbox[i].eventRow)
    ensures RequeuePermissionSuppressed(RequeuePermissionSuppressed(db, now), now + 1)
         == RequeuePermissionSuppressed(db, now)
  {
    var once := RequeuePermissionSuppressed(db, now);
    assert RequeuePermissionSuppressed(once, now + 1).outbox == once.outbox;
  }
}
