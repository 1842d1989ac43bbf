/** What becomes of each notification in a dispatch, told from the answers it got. */
module Answers {
  import opened Base
  import opened Events
  import opened Rows
  import opened Ordering
  import opened Tables
  import opened History
  import opened Notification
  import opened Dispatch

  /** How long a failed notification waits, by the attempts it had made before. */
  const RETRY_DELAYS := [5_000, 30_000, 120_000, 600_000]
  const LAST_RETRY_DELAY := 1_800_000

  function DelayAfter(attempts: int): int {
    if attempts < 0 then 5_000 else if attempts < 4 then RETRY_DELAYS[attempts] else LAST_RETRY_DELAY
  }

  /** The row moved to a final state at this instant. */
  ghost predicate Ended(was: OutboxRow, row: OutboxRow, state: OutboxState, reason: Option<Reason>, now: int) {
    row == was.(state := state, reason := reason, attempts := row.attempts, nextAttemptAt := now)
  }

  /** Shown, denied for good until permission returns, to be tried again, or failed for good. */
  ghost predicate AnsweredBy(answer: NotifyResult, was: OutboxRow, row: OutboxRow, now: int) {
    match answer
    case None => Ended(was, row, Delivered, None, now) && row.attempts == was.attempts
    case Some(Denied) => Ended(was, row, Suppressed, Some(PermissionDenied), now) && row.attempts == was.attempts
    case Some(TerminalFailure) => Ended(was, row, FailedTerminal, Some(NativeTerminal), now) && row.attempts == was.attempts + 1
    case Some(Retryable) =>
      row == was.(state := FailedRetryable, reason := Some(NativeRetryable), attempts := was.attempts + 1,
                  nextAttemptAt := now + DelayAfter(was.attempts))
  }

  /** A notification the policy holds back: put off by a minute in quiet hours, otherwise suppressed with its reason. */
  ghost predicate HeldBack(reason: SuppressionReason, was: OutboxRow, row: OutboxRow, now: int) {
    if reason.Quiet? then row == was.(nextAttemptAt := now + 60_000)
    else
      row.attempts == was.attempts
      && exists code :: Ended(was, row, Suppressed, Some(ByPolicy(code)), now) && (reason, code) in CODES
  }

  const CODES := {
    (Paused, "paused"),
    (CompletionDisabled, "completion_disabled"),
    (QuestionDisabled, "question_disabled"),
    (LocalApprovalPresented, "local_approval_presented"),
    (CompletionExpired, "completion_expired")
  }

  /** How many of these items are to be shown. */
  function CountEligible(items: seq<Item>, round: Round): nat {
    if items == [] then 0
    else
      var last := items[|items| - 1];
      CountEligible(items[..|items| - 1], round)
      + if last.row.attempts < 5 && DecideItem(round.policy, last, round.now, round.localMinute).Notify? then 1 else 0
  }

  lemma {:induction false} EligibleInOrder(items: seq<Item>, round: Round)
    ensures |EligibleOf(round.policy, items, round.now, round.localMinute)| == CountEligible(items, round)
    ensures forall i :: 0 <= i < |items| && Eligible(round.policy, items[i], round.now, round.localMinute) ==>
              && CountEligible(items[..i], round) < CountEligible(items, round)
              && EligibleOf(round.policy, items, round.now, round.localMinute)[CountEligible(items[..i], round)]
                 == (items[i].row.id, DecideItem(round.policy, items[i], round.now, round.localMinute).notice)
  {
    hide DecideItem;
    if items != [] {
      var m := |items| - 1;
      EligibleInOrder(items[..m], round);
      forall i | 0 <= i < |items| && Eligible(round.policy, items[i], round.now, round.localMinute)
        ensures CountEligible(items[..i], round) < CountEligible(items, round)
        ensures EligibleOf(round.policy, items, round.now, round.localMinute)[CountEligible(items[..i], round)]
             == (items[i].row.id, DecideItem(round.policy, items[i], round.now, round.localMinute).notice)
      {
        if i < m { assert items[..m][..i] == items[..i] && items[..m][i] == items[i]; }
      }
    }
  }

  lemma {:induction false} EligibleIdsAreItems(items: seq<Item>, round: Round)
    ensures forall e :: e in EligibleOf(round.policy, items, round.now, round.localMinute) ==>
              exists item :: item in items && item.row.id == e.0
  {
    hide DecideItem;
    if items != [] {
      var m := |items| - 1;
      EligibleIdsAreItems(items[..m], round);
      forall e | e in EligibleOf(round.policy, items, round.now, round.localMinute)
        ensures exists item :: item in items && item.row.id == e.0
      {
        if e in EligibleOf(round.policy, items[..m], round.now, round.localMinute) {
          var item :| item in items[..m] && item.row.id == e.0;
          assert item in items;
        } else {
          assert items[m] in items;
        }
      }
    }
  }

  ghost predicate DifferentIds<T>(listed: seq<(int, T)>) {
    forall i, j :: 0 <= i < j < |listed| ==> listed[i].0 != listed[j].0
  }

  lemma OneMoreId<T>(listed: seq<(int, T)>, id: int, x: T)
    requires DifferentIds(listed) && forall e :: e in listed ==> e.0 != id
    ensures DifferentIds(listed + [(id, x)])
  {
    forall i | 0 <= i < |listed| ensures listed[i].0 != id {
      assert listed[i] in listed;
    }
  }

  lemma {:induction false} EligibleIdsDiffer(items: seq<Item>, round: Round)
    requires forall i, j :: 0 <= i < j < |items| ==> items[i].row.id != items[j].row.id
    ensures DifferentIds(EligibleOf(round.policy, items, round.now, round.localMinute))
  {
    hide DecideItem, DifferentIds;
    if items == [] {
      NoIds<Notice>();
    } else {
      var m := |items| - 1;
      var before := EligibleOf(round.policy, items[..m], round.now, round.localMinute);
      EligibleIdsDiffer(items[..m], round);
      EligibleIdsAreItems(items[..m], round);
      forall e | e in before ensures e.0 != items[m].row.id {
        var item :| item in items[..m] && item.row.id == e.0;
        var k :| 0 <= k < m && items[k] == item;
      }
      if Eligible(round.policy, items[m], round.now, round.localMinute) {
        OneMoreId(before, items[m].row.id, DecideItem(round.policy, items[m], round.now, round.localMinute).notice);
      }
    }
  }

  lemma NoIds<T>()
    ensures DifferentIds<T>([])
  {
  }

  lemma {:induction false} FindOutcomeIs(outcomes: seq<(int, NotifyResult)>, k: nat)
    requires k < |outcomes| && forall i :: 0 <= i < k ==> outcomes[i].0 != outcomes[k].0
    ensures FindOutcome(outcomes, outcomes[k].0) == Some(outcomes[k].1)
  {
    if k > 0 { FindOutcomeIs(outcomes[1..], k - 1); }
  }

  lemma WindowIdsDiffer(db: Db, high: int, now: int)
    requires RowIdsSound(db)
    ensures var w := Window(db, high, now);
            forall i, j :: 0 <= i < j < |w| ==> w[i].row.id != w[j].row.id
  {
    hide Window;
    WindowIsTheDueItems(db, high, now);
    var w := Window(db, high, now);
    forall i, j | 0 <= i < j < |w| ensures w[i].row.id != w[j].row.id {
      assert w[i] in w && w[j] in w;
    }
  }

  /** The answer that counts for the i-th item of the window: its own while at most three are shown, else the one summary's. */
  function AnswerFor(window: seq<Item>, round: Round, i: nat): NotifyResult
    requires i < |window|
  {
    if CountEligible(window, round) <= 3 then round.answers(round.first + CountEligible(window[..i], round))
    else round.answers(round.first)
  }

  lemma VerdictOfEligible(db: Db, high: int, round: Round, i: nat)
    requires RowIdsSound(db) && i < |Window(db, high, round.now)|
    requires Eligible(round.policy, Window(db, high, round.now)[i], round.now, round.localMinute)
    ensures var w := Window(db, high, round.now);
            VerdictIn(round, DeliveryIn(db, high, round), w[i]) == Finish(OutcomeOf(AnswerFor(w, round, i)))
  {
    hide Window, DecideItem, OutcomeOf, EligibleOf, FindOutcome;
    var w := Window(db, high, round.now);
    EligibleInOrder(w, round);
    WindowIdsDiffer(db, high, round.now);
    EligibleIdsDiffer(w, round);
    var eligible := EligibleIn(db, high, round);
    var k := CountEligible(w[..i], round);
    if |eligible| <= 3 {
      var outcomes := Outcomes(eligible, round.answers, round.first);
      assert outcomes[k] == (w[i].row.id, round.answers(round.first + k));
      FindOutcomeIs(outcomes, k);
    }
  }

  /** What one dispatch does to the i-th item of its window. */
  ghost predicate Treated(window: seq<Item>, round: Round, i: nat, row: OutboxRow)
    requires i < |window|
  {
    var was, decision := window[i].row, DecideItem(round.policy, window[i], round.now, round.localMinute);
    if was.attempts >= 5 then
      Ended(was, row, FailedTerminal, Some(RetryLimitReached), round.now) && row.attempts == was.attempts + 1
    else if decision.Suppress? then HeldBack(decision.reason, was, row, round.now)
    else AnsweredBy(AnswerFor(window, round, i), was, row, round.now)
  }

  /**
   * Every due item gets what it is due: at five attempts it is ended, held back it is put off or suppressed with the
   * policy's reason, and otherwise the answer of the platform decides, each item's own up to three, one for all beyond.
   */
  lemma DispatchTreatsEachItem(db: Db, high: int, round: Round, i: nat, j: nat)
    requires Sound(db) && HighWatermark(db.outbox, round.now) == Some(high)
    requires i < |Window(db, high, round.now)| && j < |db.outbox| && db.outbox[j] == Window(db, high, round.now)[i].row
    ensures |DispatchOutbox(db, round).outbox| == |db.outbox|
    ensures Treated(Window(db, high, round.now), round, i, DispatchOutbox(db, round).outbox[j])
  {
    hide Window, DecideItem, FindEvent, DeliveryIn, WithinCheckpoint, CursorsSound, TracesDistinct, OutboxSound, AnswerFor;
    var w := Window(db, high, round.now);
    WindowIsTheDueItems(db, high, round.now);
    assert w[i] in w;
    var delivery := DeliveryIn(db, high, round);
    if Eligible(round.policy, w[i], round.now, round.localMinute) {
      VerdictOfEligible(db, high, round, i);
    }
    var row := DispatchOutbox(db, round).outbox[j];
    assert row == Settled(w[i].row, VerdictIn(round, delivery, w[i]), round.now);
    var decision := DecideItem(round.policy, w[i], round.now, round.localMinute);
    if w[i].row.attempts < 5 && decision.Suppress? && !decision.reason.Quiet? {
      assert Ended(w[i].row, row, Suppressed, Some(ByPolicy(ReasonCode(decision.reason))), round.now);
    }
  }

  /** A row is due by its own state and time, and then the window holds it with its event. */
  lemma DueInWindow(db: Db, high: int, round: Round, j: nat)
    requires Sound(db) && HighWatermark(db.outbox, round.now) == Some(high) && j < |db.outbox|
    ensures var row := db.outbox[j];
            && (Due(row, high, round.now) <==> Active(row.state) && row.nextAttemptAt <= round.now)
            && (Due(row, high, round.now) ==>
                  FindEvent(db.events, row.eventRow).Some?
                  && Item(row, FindEvent(db.events, row.eventRow).value) in Window(db, high, round.now))
  {
    hide Window, WithinCheckpoint, CursorsSound, TracesDistinct;
    var row := db.outbox[j];
    WindowIsTheDueItems(db, high, round.now);
    assert row in db.outbox;
    assert HasOutbox(db.outbox, row.eventRow) && HasEvent(db.events, row.eventRow);
  }

  /** The whole of a dispatch: every due row is treated as its item, every other row and table stays, and nothing is due any more. */
  ghost predicate SettledAs(db: Db, high: int, round: Round, after: Db) {
    var w := Window(db, high, round.now);
    && after == db.(outbox := after.outbox) && |after.outbox| == |db.outbox|
    && (forall j :: 0 <= j < |db.outbox| ==>
          if Active(db.outbox[j].state) && db.outbox[j].nextAttemptAt <= round.now
          then TreatedIn(w, round, db.outbox[j], after.outbox[j])
          else after.outbox[j] == db.outbox[j])
    && Window(after, high, round.now) == []
  }

  ghost predicate TreatedIn(window: seq<Item>, round: Round, was: OutboxRow, row: OutboxRow) {
    exists i :: 0 <= i < |window| && window[i].row == was && Treated(window, round, i, row)
  }

  lemma DispatchSettlesEachItem(db: Db, high: int, round: Round)
    requires Sound(db) && HighWatermark(db.outbox, round.now) == Some(high)
    ensures SettledAs(db, high, round, DispatchOutbox(db, round))
  {
    hide Window, DispatchOutbox, Treated, Sound, HighWatermark;
    var w, after := Window(db, high, round.now), DispatchOutbox(db, round);
    DispatchSettlesExactlyTheWindow(db, high, round);
    forall j | 0 <= j < |db.outbox| && Active(db.outbox[j].state) && db.outbox[j].nextAttemptAt <= round.now
      ensures TreatedIn(w, round, db.outbox[j], after.outbox[j])
    {
      DueInWindow(db, high, round, j);
      var item := Item(db.outbox[j], FindEvent(db.events, db.outbox[j].eventRow).value);
      var i :| 0 <= i < |w| && w[i] == item;
      DispatchTreatsEachItem(db, high, round, i, j);
    }
  }

  // ---- Items that come later ----

  /** A window holds exactly the waiting items that are due and were there when its upper end was fixed. */
  lemma WindowHolds(db: Db, high: int, now: int, item: Item)
    requires Sound(db)
    ensures item in Window(db, high, now)
       <==> && item.row in db.outbox && item.event in db.events && item.event.id == item.row.eventRow
            && (item.row.state.Pending? || item.row.state.FailedRetryable?)
            && item.row.nextAttemptAt <= now && item.row.id <= high
  {
    hide Window, WithinCheckpoint, CursorsSound, TracesDistinct, OutboxSound;
    WindowIsTheDueItems(db, high, now);
    var found := FindEvent(db.events, item.row.eventRow);
    if found.Some? && item.event in db.events && item.event.id == item.row.eventRow {
      AscendingUnique(db.events, EventRowId, found.value, item.event);
    }
  }

  // ---- One item at a time ----

  /** The row at this place carries the identifier and still waits to be settled. */
  ghost predicate WaitsAt(outbox: seq<OutboxRow>, j: int, id: int) {
    0 <= j < |outbox| && outbox[j].id == id && (outbox[j].state.Pending? || outbox[j].state.FailedRetryable?)
  }

  lemma FoundIsThere(outbox: seq<OutboxRow>, id: int, j: int)
    requires Ascending(outbox, OutboxId) && 0 <= j < |outbox| && outbox[j].id == id
    ensures FindOutbox(outbox, id) == Some(outbox[j])
    ensures forall row: OutboxRow :: row.id == id ==> PutOutbox(outbox, row) == outbox[j := row]
  {
    var found := FindOutbox(outbox, id);
    assert outbox[j] in outbox;
    AscendingUnique(outbox, OutboxId, found.value, outbox[j]);
    forall row: OutboxRow | row.id == id ensures PutOutbox(outbox, row) == outbox[j := row] {
      forall i | 0 <= i < |outbox| ensures PutOutbox(outbox, row)[i] == outbox[j := row][i] {
        if outbox[i].id == id { AscendingIndex(outbox, OutboxId, i, j); }
      }
    }
  }

  /** Only a waiting item can be finished or put off: its own row changes and no other; anything else is refused by name. */
  lemma OnlyWaitingIsSettled(db: Db, id: int, outcome: OutboxOutcome, now: int, until: int)
    requires Ascending(db.outbox, OutboxId)
    ensures forall j :: WaitsAt(db.outbox, j, id) ==>
              && FinishOutbox(db, id, outcome, now)
                 == Transaction(db.(outbox := db.outbox[j := FinishedRow(db.outbox[j], outcome, now)]), Ok(()))
              && DeferOutbox(db, id, until)
                 == Transaction(db.(outbox := db.outbox[j := db.outbox[j].(nextAttemptAt := until)]), Ok(()))
    ensures (forall j :: !WaitsAt(db.outbox, j, id)) ==>
              && FinishOutbox(db, id, outcome, now) == Transaction(db, Err(OutboxNotPending(id)))
              && DeferOutbox(db, id, until) == Transaction(db, Err(OutboxNotPending(id)))
  {
    hide FindOutbox, PutOutbox;
    forall j | WaitsAt(db.outbox, j, id)
      ensures FinishOutbox(db, id, outcome, now)
           == Transaction(db.(outbox := db.outbox[j := FinishedRow(db.outbox[j], outcome, now)]), Ok(()))
      ensures DeferOutbox(db, id, until)
           == Transaction(db.(outbox := db.outbox[j := db.outbox[j].(nextAttemptAt := until)]), Ok(()))
    {
      FoundIsThere(db.outbox, id, j);
    }
    if (forall j :: !WaitsAt(db.outbox, j, id)) && FindOutbox(db.outbox, id).Some? {
      var row := FindOutbox(db.outbox, id).value;
      var j :| 0 <= j < |db.outbox| && db.outbox[j] == row;
      assert !WaitsAt(db.outbox, j, id);
    }
  }

  // ---- When an item is shown ----

  /** The adapters whose word is taken for what a local approval prompt already showed. */
  const TRUSTED_ADAPTERS := {("codex", "codex-v1"), ("claude-code", "claude-code-v1")}

  /** The desktop itself has already shown this approval on this machine. */
  ghost predicate ShownLocally(item: Item) {
    && item.event.key == "local"
    && MetadataAt(item.event.event, "aizu_local_approval_presented") == Some(Flag(true))
    && exists adapter :: MetadataAt(item.event.event, "aizu_adapter") == Some(Text(adapter))
                         && (item.event.event.agent, adapter) in TRUSTED_ADAPTERS
  }

  /** The switch for this kind of event is on. */
  ghost predicate Enabled(policy: Policy, kind: Kind) {
    if kind.TaskCompleted? then policy.completionEnabled else policy.questionEnabled
  }

  /** The minute lies in quiet hours, and the event is no question that passes through them. */
  ghost predicate Hushed(policy: Policy, kind: Kind, localMinute: Option<int>) {
    && policy.quietHours.Some? && localMinute.Some? && InQuietHours(policy.quietHours.value, localMinute.value)
    && (kind.TaskCompleted? || !policy.quietHours.value.questionsBypass)
  }

  /** How old an event counts: from its own time, or from reception if the two are over five minutes apart. */
  function AgeOf(row: EventRow, now: int): int {
    var apart := row.receivedAt - row.event.occurredAt;
    now - if -300_000 <= apart <= 300_000 then row.event.occurredAt else row.receivedAt
  }

  ghost predicate TooOld(policy: Policy, row: EventRow, now: int) {
    row.event.kind.TaskCompleted? && AgeOf(row, now) > policy.maxCompletionAge
  }

  lemma TrustedIff(event: Event)
    ensures TrustedAdapter(event)
       <==> exists adapter :: MetadataAt(event, "aizu_adapter") == Some(Text(adapter)) && (event.agent, adapter) in TRUSTED_ADAPTERS
  {
    if TrustedAdapter(event) {
      var adapter := event.metadata.value["aizu_adapter"].text;
      assert MetadataAt(event, "aizu_adapter") == Some(Text(adapter)) && (event.agent, adapter) in TRUSTED_ADAPTERS;
    }
  }

  /** An item is shown exactly when nothing holds it back, and its notice then says what the row says. */
  lemma ItemShownIff(policy: Policy, item: Item, now: int, localMinute: Option<int>)
    ensures var decision := DecideItem(policy, item, now, localMinute);
            && (decision.Notify? <==>
                  && !policy.paused && Enabled(policy, item.event.event.kind) && !ShownLocally(item)
                  && !Hushed(policy, item.event.event.kind, localMinute) && !TooOld(policy, item.event, now))
            && (decision.Notify? ==>
                  && decision.notice.EventNotice? && decision.notice.event == item.event.event
                  && decision.notice.identifier == (item.event.event.sourceId, item.event.event.id)
                  && decision.notice.sourceLabel == item.event.localLabel
                  && decision.notice.details == policy.agentDetailsEnabled)
  {
    TrustedIff(item.event.event);
  }

  /** The reason given is the first that applies: pause, switch, shown locally, quiet hours, age. */
  lemma ItemHeldBackFor(policy: Policy, item: Item, now: int, localMinute: Option<int>)
    ensures var decision, kind := DecideItem(policy, item, now, localMinute), item.event.event.kind;
            decision.Suppress? ==>
              match decision.reason
              case Paused => policy.paused
              case CompletionDisabled => !policy.paused && kind.TaskCompleted? && !Enabled(policy, kind)
              case QuestionDisabled => !policy.paused && kind.AgentQuestion? && !Enabled(policy, kind)
              case LocalApprovalPresented => !policy.paused && Enabled(policy, kind) && ShownLocally(item)
              case Quiet => !policy.paused && Enabled(policy, kind) && !ShownLocally(item) && Hushed(policy, kind, localMinute)
              case CompletionExpired =>
                && !policy.paused && Enabled(policy, kind) && !ShownLocally(item) && !Hushed(policy, kind, localMinute)
                && TooOld(policy, item.event, now)
  {
    TrustedIff(item.event.event);
  }

  // ---- The order of a dispatch ----

  /** Questions first, then what failed or was cancelled, then the rest. */
  ghost predicate Asks(event: Event) { event.kind.AgentQuestion? }

  ghost predicate WentWrong(event: Event) {
    event.kind.TaskCompleted? && (event.outcome == Some(Outcome.Failed) || event.outcome == Some(Cancelled))
  }

  /** Whatever stands earlier in the window is at least as urgent, and among equals was received no later. */
  lemma UrgentAndOldFirst(db: Db, high: int, now: int, i: nat, j: nat)
    requires RowIdsSound(db) && i < j < |Window(db, high, now)|
    ensures var w := Window(db, high, now);
            var a, b := w[i].event.event, w[j].event.event;
            && (Asks(b) ==> Asks(a))
            && (WentWrong(b) ==> Asks(a) || WentWrong(a))
            && ((Asks(a) <==> Asks(b)) && (WentWrong(a) <==> WentWrong(b)) ==>
                  || w[i].event.receivedAt < w[j].event.receivedAt
                  || (w[i].event.receivedAt == w[j].event.receivedAt && w[i].row.id < w[j].row.id))
  {
    hide Window;
    WindowIsTheDueItems(db, high, now);
    WindowIdsDiffer(db, high, now);
    var w := Window(db, high, now);
    assert !Before(ItemOrder(w[j]), ItemOrder(w[i]));
    assert w[i].row.id != w[j].row.id;
  }
}
