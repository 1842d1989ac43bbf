/** The two-pass dispatch loop: scan the window page by page, deliver, then drain the same window. */
module Drain {
  import opened Base
  import opened Events
  import opened Rows
  import opened Deletion
  import opened Tables
  import opened History
  import opened Notification
  import opened Dispatch
  import opened Answers
  import opened Desktop

  // ---- Partial drains ----

  function WindowIds(db: Db, high: int, now: int): set<int> {
    set item | item in Window(db, high, now) :: item.row.id
  }

  /** The outbox once the items in done have been settled. */
  function Drained(db: Db, done: set<int>, high: int, delivery: Delivery, round: Round): seq<OutboxRow> {
    seq(|db.outbox|, i requires 0 <= i < |db.outbox| =>
          if db.outbox[i].id in done then RowAfter(db.outbox[i], db.events, high, delivery, round) else db.outbox[i])
  }

  /** The counters after settling the items in done, in whatever order. */
  function Tally(outbox: seq<OutboxRow>, events: seq<EventRow>, done: set<int>, delivery: Delivery, round: Round): DispatchReport {
    if outbox == [] then NOTHING_DISPATCHED
    else
      var last := outbox[|outbox| - 1];
      var before := Tally(outbox[..|outbox| - 1], events, done, delivery, round);
      var event := FindEvent(events, last.eventRow);
      if last.id in done && event.Some?
      then Counted(before, VerdictIn(round, delivery, Item(last, event.value)))
      else before
  }

  /** The report of a whole dispatch. */
  function DispatchReportOf(db: Db, round: Round): DispatchReport {
    match HighWatermark(db.outbox, round.now)
    case None => NOTHING_DISPATCHED
    case Some(high) =>
      Tally(db.outbox, db.events, WindowIds(db, high, round.now), DeliveryIn(db, high, round), round)
  }

  /** The notices a whole dispatch shows. */
  function NoticesOf(db: Db, round: Round): seq<Notice> {
    match HighWatermark(db.outbox, round.now)
    case None => []
    case Some(high) => NoticesShown(EligibleIn(db, high, round))
  }

  lemma {:induction false} TallyIgnores(outbox: seq<OutboxRow>, events: seq<EventRow>, done: set<int>, id: int, delivery: Delivery, round: Round)
    requires forall o :: o in outbox ==> o.id != id
    ensures Tally(outbox, events, done + {id}, delivery, round) == Tally(outbox, events, done, delivery, round)
  {
    if outbox != [] {
      assert outbox[|outbox| - 1] in outbox;
      TallyIgnores(outbox[..|outbox| - 1], events, done, id, delivery, round);
    }
  }

  lemma CountedCommutes(report: DispatchReport, v: Verdict, u: Verdict)
    ensures Counted(Counted(report, v), u) == Counted(Counted(report, u), v)
  {
  }

  lemma {:induction false} TallyAddsOne(outbox: seq<OutboxRow>, events: seq<EventRow>, done: set<int>, item: Item, delivery: Delivery, round: Round)
    requires Ascending(outbox, OutboxId) && item.row in outbox && item.row.id !in done
    requires FindEvent(events, item.row.eventRow) == Some(item.event)
    ensures Tally(outbox, events, done + {item.row.id}, delivery, round)
         == Counted(Tally(outbox, events, done, delivery, round), VerdictIn(round, delivery, item))
  {
    hide FindEvent, VerdictIn, Counted;
    var m := |outbox| - 1;
    var last := outbox[m];
    var k :| 0 <= k < |outbox| && outbox[k] == item.row;
    if k == m {
      forall o | o in outbox[..m] ensures o.id != item.row.id {
        var i :| 0 <= i < m && outbox[i] == o;
        assert OutboxId(outbox[i]) < OutboxId(outbox[m]);
      }
      TallyIgnores(outbox[..m], events, done, item.row.id, delivery, round);
    } else {
      assert OutboxId(outbox[k]) < OutboxId(outbox[m]);
      assert outbox[..m][k] == item.row;
      TallyAddsOne(outbox[..m], events, done, item, delivery, round);
      if last.id in done && FindEvent(events, last.eventRow).Some? {
        CountedCommutes(Tally(outbox[..m], events, done, delivery, round), VerdictIn(round, delivery, item),
                        VerdictIn(round, delivery, Item(last, FindEvent(events, last.eventRow).value)));
      }
    }
  }

  lemma {:induction false} TallyOfNothing(outbox: seq<OutboxRow>, events: seq<EventRow>, delivery: Delivery, round: Round)
    ensures Tally(outbox, events, {}, delivery, round) == NOTHING_DISPATCHED
  {
    if outbox != [] {
      TallyOfNothing(outbox[..|outbox| - 1], events, delivery, round);
    }
  }

  /** A window read in the middle of a drain lists exactly the items not yet settled. */
  lemma DrainedWindow(db: Db, done: set<int>, high: int, round: Round)
    requires Sound(db) && done <= WindowIds(db, high, round.now)
    ensures var delivery := DeliveryIn(db, high, round);
            var current := db.(outbox := Drained(db, done, high, delivery, round));
            && Ascending(current.outbox, OutboxId)
            && (forall item :: item in Window(current, high, round.now) ==>
                  item in Window(db, high, round.now) && item.row.id !in done)
            && (forall item :: item in Window(db, high, round.now) && item.row.id !in done ==>
                  item in Window(current, high, round.now))
  {
    hide Window, RowAfter, Settled, DeliveryIn, WithinCheckpoint, CursorsSound, TracesDistinct, OutboxSound, FindEvent, VerdictIn, Due;
    var delivery := DeliveryIn(db, high, round);
    var current := db.(outbox := Drained(db, done, high, delivery, round));
    forall i | 0 <= i < |db.outbox| ensures current.outbox[i].id == db.outbox[i].id {
      RowAfterIdentity(db.outbox[i], db.events, high, delivery, round);
    }
    DrainedAscending(db.outbox, current.outbox);
    WindowIsTheDueItems(db, high, round.now);
    WindowIsTheDueItems(current, high, round.now);
    forall item | item in Window(current, high, round.now)
      ensures item in Window(db, high, round.now) && item.row.id !in done
    {
      var i :| 0 <= i < |current.outbox| && current.outbox[i] == item.row;
      if db.outbox[i].id in done {
        var earlier :| earlier in Window(db, high, round.now) && earlier.row.id == db.outbox[i].id;
        AscendingUnique(db.outbox, OutboxId, earlier.row, db.outbox[i]);
        BatchIsComplete(db, high, round, earlier);
        SettledRow(earlier, db.events, high, delivery, round);
        assert false;
      }
      assert db.outbox[i] in db.outbox;
    }
    forall item | item in Window(db, high, round.now) && item.row.id !in done
      ensures item in Window(current, high, round.now)
    {
      var i :| 0 <= i < |db.outbox| && db.outbox[i] == item.row;
      assert current.outbox[i] in current.outbox;
    }
  }

  lemma DrainedAscending(before: seq<OutboxRow>, after: seq<OutboxRow>)
    requires Ascending(before, OutboxId) && |after| == |before|
    requires forall i :: 0 <= i < |before| ==> after[i].id == before[i].id
    ensures Ascending(after, OutboxId)
  {
    forall i, j | 0 <= i < j < |after| ensures OutboxId(after[i]) < OutboxId(after[j]) {
      assert OutboxId(before[i]) < OutboxId(before[j]);
    }
  }

  lemma RowAfterIdentity(row: OutboxRow, events: seq<EventRow>, high: int, delivery: Delivery, round: Round)
    ensures RowAfter(row, events, high, delivery, round).id == row.id
  {
  }

  lemma SettledRow(item: Item, events: seq<EventRow>, high: int, delivery: Delivery, round: Round)
    requires Due(item.row, high, round.now) && FindEvent(events, item.row.eventRow) == Some(item.event)
    requires !VerdictIn(round, delivery, item).IncompleteBatch?
    ensures RowAfter(item.row, events, high, delivery, round) == Settled(item.row, VerdictIn(round, delivery, item), round.now)
    ensures !Due(RowAfter(item.row, events, high, delivery, round), high, round.now)
  {
    hide FindEvent;
    SettledLeavesWindow(round, delivery, item, high);
  }

  /** Writing one settled row back is the next partial drain. */
  lemma PutIsNextDrain(db: Db, done: set<int>, high: int, round: Round, item: Item)
    requires Sound(db) && item in Window(db, high, round.now) && item.row.id !in done
    ensures var delivery := DeliveryIn(db, high, round);
            var current := Drained(db, done, high, delivery, round);
            && FindOutbox(current, item.row.id) == Some(item.row)
            && PutOutbox(current, Settled(item.row, VerdictIn(round, delivery, item), round.now))
               == Drained(db, done + {item.row.id}, high, delivery, round)
  {
    hide Window, RowAfter, Settled, DeliveryIn, WithinCheckpoint, CursorsSound, TracesDistinct, OutboxSound, FindEvent, VerdictIn, Due, FindOutbox;
    var delivery := DeliveryIn(db, high, round);
    var current := Drained(db, done, high, delivery, round);
    WindowIsTheDueItems(db, high, round.now);
    BatchIsComplete(db, high, round, item);
    SettledRow(item, db.events, high, delivery, round);
    RowAfterIdentity(item.row, db.events, high, delivery, round);
    var k :| 0 <= k < |db.outbox| && db.outbox[k] == item.row;
    assert current[k] == item.row && current[k] in current;
    forall i | 0 <= i < |db.outbox| && current[i].id == item.row.id ensures i == k {
      RowAfterIdentity(db.outbox[i], db.events, high, delivery, round);
      AscendingIndex(db.outbox, OutboxId, i, k);
    }
    assert PutOutbox(current, Settled(item.row, VerdictIn(round, delivery, item), round.now))
        == Drained(db, done + {item.row.id}, high, delivery, round);
  }

  /** Draining the whole window is the dispatch. */
  lemma FullDrainIsDispatch(db: Db, high: int, round: Round)
    requires Sound(db) && HighWatermark(db.outbox, round.now) == Some(high)
    ensures Drained(db, WindowIds(db, high, round.now), high, DeliveryIn(db, high, round), round)
         == DispatchOutbox(db, round).outbox
  {
    hide Window, Settled, DeliveryIn, WithinCheckpoint, CursorsSound, TracesDistinct, OutboxSound, FindEvent, VerdictIn, Due;
    WindowIsTheDueItems(db, high, round.now);
    var ids := WindowIds(db, high, round.now);
    forall i | 0 <= i < |db.outbox| && Due(db.outbox[i], high, round.now) && FindEvent(db.events, db.outbox[i].eventRow).Some?
      ensures db.outbox[i].id in ids
    {
      assert db.outbox[i] in db.outbox;
      assert Item(db.outbox[i], FindEvent(db.events, db.outbox[i].eventRow).value) in Window(db, high, round.now);
    }
  }

  lemma WindowIdsCount(db: Db, high: int, now: int)
    requires RowIdsSound(db)
    ensures |WindowIds(db, high, now)| == |Window(db, high, now)|
  {
    hide Window;
    WindowIsTheDueItems(db, high, now);
    DistinctIdsCount(Window(db, high, now));
  }

  lemma {:induction false} DistinctIdsCount(items: seq<Item>)
    requires forall i, j :: 0 <= i < j < |items| ==> items[i] != items[j]
    requires forall x, y :: x in items && y in items && x.row.id == y.row.id ==> x == y
    ensures |set item | item in items :: item.row.id| == |items|
  {
    if items != [] {
      var m := |items| - 1;
      var front := set item | item in items[..m] :: item.row.id;
      DistinctIdsCount(items[..m]);
      assert items[m].row.id !in front;
      assert (set item | item in items :: item.row.id) == front + {items[m].row.id};
    }
  }

  lemma EligibleOneMore(policy: Policy, items: seq<Item>, i: nat, now: int, localMinute: Option<int>)
    requires i < |items|
    ensures EligibleOf(policy, items[..i + 1], now, localMinute)
         == EligibleOf(policy, items[..i], now, localMinute)
            + if Eligible(policy, items[i], now, localMinute)
              then [(items[i].row.id, DecideItem(policy, items[i], now, localMinute).notice)] else []
  {
    assert items[..i + 1][..i] == items[..i];
  }

  /** The first pass: counts the eligible items of the window and keeps the first three. */
  method ScanWindow(desktop: DesktopState, policy: Policy, high: int, now: int, localMinute: Option<int>)
    returns (eligibleCount: nat, individual: seq<(int, Notice)>)
    ensures var eligible := EligibleOf(policy, Window(desktop.Contents(), high, now), now, localMinute);
            eligibleCount == |eligible| && individual == History.Take(eligible, 3)
  {
    hide Window, EligibleOf, DecideItem;
    eligibleCount, individual := 0, [];
    var offset := 0;
    ghost var window := Window(desktop.Contents(), high, now);
    NothingEligible(policy, now, localMinute);
    while true
      invariant 0 <= offset <= |window|
      invariant eligibleCount == |EligibleOf(policy, window[..offset], now, localMinute)|
      invariant individual == History.Take(EligibleOf(policy, window[..offset], now, localMinute), 3)
      decreases |window| - offset
    {
      var page := desktop.PendingOutboxPage(OUTBOX_PAGE_SIZE, offset, high, now);
      var items := page.value;
      if items == [] { break; }
      ghost var start := offset;
      offset := offset + |items|;
      for i := 0 to |items|
        invariant eligibleCount == |EligibleOf(policy, window[..start + i], now, localMinute)|
        invariant individual == History.Take(EligibleOf(policy, window[..start + i], now, localMinute), 3)
      {
        EligibleOneMore(policy, window, start + i, now, localMinute);
        assert items[i] == window[start + i];
        if items[i].row.attempts >= MAX_NOTIFICATION_ATTEMPTS { continue; }
        var decision := DecideItem(policy, items[i], now, localMinute);
        if decision.Notify? {
          eligibleCount := eligibleCount + 1;
          if |individual| < 3 {
            individual := individual + [(items[i].row.id, decision.notice)];
          }
        }
      }
      if |items| < OUTBOX_PAGE_SIZE { break; }
    }
    assert window[..offset] == window;
  }

  lemma NothingEligible(policy: Policy, now: int, localMinute: Option<int>)
    ensures EligibleOf(policy, [], now, localMinute) == []
  {
  }

  /** The delivery between the passes: nothing, up to three notices, or one summary. */
  method ShowBatch(notifier: Notifier, eligibleCount: nat, individual: seq<(int, Notice)>, ghost eligible: seq<(int, Notice)>)
    returns (delivery: Delivery)
    requires eligibleCount == |eligible| && individual == History.Take(eligible, 3)
    modifies notifier
    ensures delivery == Deliver(eligible, notifier.answers, old(|notifier.calls|))
    ensures notifier.calls == old(notifier.calls) + NoticesShown(eligible)
  {
    var notices := seq(|individual|, i requires 0 <= i < |individual| => individual[i].1);
    match AggregateBacklogCount(eligibleCount, notices)
    case Empty =>
      delivery := NoDelivery;
    case Individual(chosen) =>
      var outcomes := [];
      for i := 0 to |chosen|
        invariant |outcomes| == i && |notifier.calls| == old(|notifier.calls|) + i
        invariant notifier.calls == old(notifier.calls) + notices[..i]
        invariant outcomes == Outcomes(eligible, notifier.answers, old(|notifier.calls|))[..i]
      {
        var result := notifier.Show(chosen[i]);
        outcomes := outcomes + [(individual[i].0, result)];
      }
      delivery := Individually(outcomes);
    case Summary(summary) =>
      var result := notifier.Show(summary);
      delivery := Summarised(result);
  }

  datatype DispatchError = StoreFailed(store: DesktopError) | BatchIncomplete

  /** Settles one item of a page through the store, as its verdict says. */
  method SettleItem(desktop: DesktopState, item: Item, verdict: Verdict, now: int, report: DispatchReport)
    returns (result: Result<DispatchReport, DispatchError>)
    requires FindOutbox(desktop.outbox, item.row.id) == Some(item.row) && Active(item.row.state)
    modifies desktop`outbox
    ensures result == if verdict.IncompleteBatch? then Err(BatchIncomplete) else Ok(Counted(report, verdict))
    ensures desktop.outbox == if verdict.IncompleteBatch? then old(desktop.outbox)
                              else PutOutbox(old(desktop.outbox), Settled(item.row, verdict, now))
  {
    hide FindOutbox;
    match verdict {
      case Finish(outcome) =>
        var finished := desktop.FinishOutbox(item.row.id, outcome, now);
        return Ok(Counted(report, verdict));
      case Defer(until) =>
        var deferred := desktop.DeferOutbox(item.row.id, until);
        return Ok(Counted(report, verdict));
      case IncompleteBatch =>
        return Err(BatchIncomplete);
    }
  }

  /** A drain in progress: the items in done are settled and counted, the others are as db has them. */
  ghost predicate Draining(current: Db, report: DispatchReport, db: Db, done: set<int>, high: int, round: Round) {
    var delivery := DeliveryIn(db, high, round);
    && current == db.(outbox := Drained(db, done, high, delivery, round))
    && done <= WindowIds(db, high, round.now)
    && report == Tally(db.outbox, db.events, done, delivery, round)
    && Total(report) == |done|
  }

  /** Settling one more unsettled item of the window advances the drain by it. */
  method DrainItem(desktop: DesktopState, item: Item, delivery: Delivery, high: int, round: Round, report: DispatchReport,
                   ghost db: Db, ghost done: set<int>)
    returns (result: Result<DispatchReport, DispatchError>)
    requires Sound(db) && Draining(desktop.Contents(), report, db, done, high, round)
    requires delivery == DeliveryIn(db, high, round)
    requires item in Window(db, high, round.now) && item.row.id !in done
    modifies desktop`outbox
    ensures result.Ok? && Draining(desktop.Contents(), result.value, db, done + {item.row.id}, high, round)
  {
    hide Window, Settled, DeliveryIn, Sound, VerdictIn, FindOutbox, PutOutbox, Drained, Tally, Counted, WindowIds;
    ItemFacts(db, high, round, item, done);
    PutIsNextDrain(db, done, high, round, item);
    result := SettleItem(desktop, item, VerdictIn(round, delivery, item), round.now, report);
  }

  /** Settles a freshly read page. */
  method DrainPage(desktop: DesktopState, items: seq<Item>, delivery: Delivery, high: int, round: Round, report: DispatchReport,
                   ghost db: Db, ghost before: set<int>)
    returns (result: Result<DispatchReport, DispatchError>, ghost done: set<int>)
    requires Sound(db) && Draining(desktop.Contents(), report, db, before, high, round)
    requires delivery == DeliveryIn(db, high, round)
    requires items != [] && forall i :: 0 <= i < |items| ==> items[i] in Window(db, high, round.now) && items[i].row.id !in before
    requires forall i, j :: 0 <= i < j < |items| ==> items[i].row.id != items[j].row.id
    modifies desktop`outbox
    ensures result.Ok? && Draining(desktop.Contents(), result.value, db, done, high, round)
    ensures before <= done && items[0].row.id in done
  {
    hide Window, DeliveryIn, Sound, VerdictIn, Draining;
    done := before;
    result := Ok(report);
    for k := 0 to |items|
      invariant result.Ok? && Draining(desktop.Contents(), result.value, db, done, high, round)
      invariant before <= done && (k > 0 ==> items[0].row.id in done)
      invariant forall j :: k <= j < |items| ==> items[j].row.id !in done
    {
      result := DrainItem(desktop, items[k], delivery, high, round, result.value, db, done);
      done := done + {items[k].row.id};
    }
  }

  /** The second pass: rereads the first page of the window until nothing is left in it. */
  method DrainOutboxWindow(desktop: DesktopState, delivery: Delivery, high: int, round: Round)
    returns (result: Result<DispatchReport, DispatchError>)
    requires Sound(desktop.Contents()) && HighWatermark(desktop.outbox, round.now) == Some(high)
    requires delivery == DeliveryIn(desktop.Contents(), high, round)
    modifies desktop`outbox
    ensures desktop.Contents() == DispatchOutbox(old(desktop.Contents()), round)
    ensures result == Ok(DispatchReportOf(old(desktop.Contents()), round))
    ensures result.Ok? && Total(result.value) == |Window(old(desktop.Contents()), high, round.now)|
  {
    hide Window, Page, DeliveryIn, Sound, Draining, DispatchOutbox, DispatchReportOf, HighWatermark, WindowIds;
    ghost var db := desktop.Contents();
    ghost var done: set<int> := {};
    result := Ok(NOTHING_DISPATCHED);
    DrainStarts(db, high, round);
    while true
      invariant result.Ok? && Draining(desktop.Contents(), result.value, db, done, high, round)
      decreases |WindowIds(db, high, round.now) - done|
    {
      var page := desktop.PendingOutboxPage(OUTBOX_PAGE_SIZE, 0, high, round.now);
      var items := page.value;
      if items == [] {
        DrainEnds(desktop.Contents(), result.value, db, done, high, round);
        return;
      }
      PageIsFresh(desktop.Contents(), result.value, db, done, high, round);
      ghost var settled := done;
      ghost var first := items[0].row.id;
      InWindowIds(db, high, round.now, items[0]);
      result, done := DrainPage(desktop, items, delivery, high, round, result.value, db, done);
      StrictlyFewer(WindowIds(db, high, round.now), settled, done, first);
    }
  }

  lemma FirstPage(db: Db, high: int, now: int)
    ensures Page(db, OUTBOX_PAGE_SIZE, 0, high, now) == History.Take(Window(db, high, now), OUTBOX_PAGE_SIZE)
  {
    hide Window;
    assert Window(db, high, now)[0..] == Window(db, high, now);
  }

  lemma InWindowIds(db: Db, high: int, now: int, item: Item)
    requires item in Window(db, high, now)
    ensures item.row.id in WindowIds(db, high, now)
  {
    hide Window;
  }

  lemma StrictlyFewer(all: set<int>, before: set<int>, after: set<int>, gone: int)
    requires before <= after && gone in all && gone in after && gone !in before
    ensures |all - after| < |all - before|
  {
    assert all - after <= all - before - {gone};
    SubsetSize(all - after, all - before - {gone});
  }

  lemma DrainStarts(db: Db, high: int, round: Round)
    ensures Draining(db, NOTHING_DISPATCHED, db, {}, high, round)
  {
    hide Window, DeliveryIn, RowAfter;
    TallyOfNothing(db.outbox, db.events, DeliveryIn(db, high, round), round);
    assert Drained(db, {}, high, DeliveryIn(db, high, round), round) == db.outbox;
  }

  lemma DrainEnds(current: Db, report: DispatchReport, db: Db, done: set<int>, high: int, round: Round)
    requires Sound(db) && HighWatermark(db.outbox, round.now) == Some(high)
    requires Draining(current, report, db, done, high, round) && Page(current, OUTBOX_PAGE_SIZE, 0, high, round.now) == []
    ensures current == DispatchOutbox(db, round) && report == DispatchReportOf(db, round)
    ensures Total(report) == |Window(db, high, round.now)|
  {
    hide Window, DeliveryIn, Drained, Tally, RowAfter, Sound, WindowIds;
    FirstPage(current, high, round.now);
    NothingLeft(current, report, db, done, high, round);
    FullDrainIsDispatch(db, high, round);
    DispatchTouchesOutbox(db, high, round);
    SoundRowIds(db);
    WindowIdsCount(db, high, round.now);
  }

  lemma SoundRowIds(db: Db)
    requires Sound(db)
    ensures RowIdsSound(db)
  {
  }

  lemma DispatchTouchesOutbox(db: Db, high: int, round: Round)
    ensures DispatchOutbox(db, round) == db.(outbox := DispatchOutbox(db, round).outbox)
  {
    hide Window, DeliveryIn, RowAfter;
  }

  lemma NothingLeft(current: Db, report: DispatchReport, db: Db, done: set<int>, high: int, round: Round)
    requires Sound(db) && Draining(current, report, db, done, high, round) && Window(current, high, round.now) == []
    ensures done == WindowIds(db, high, round.now)
  {
    hide Window, DeliveryIn, Drained, Tally, Sound;
    DrainedWindow(db, done, high, round);
    assert forall item :: item in Window(db, high, round.now) ==> item.row.id in done;
  }

  /** The items of a freshly read page are unsettled, each once. */
  lemma PageIsFresh(current: Db, report: DispatchReport, db: Db, done: set<int>, high: int, round: Round)
    requires Sound(db) && Draining(current, report, db, done, high, round)
    ensures var items := Page(current, OUTBOX_PAGE_SIZE, 0, high, round.now);
            && (forall i :: 0 <= i < |items| ==> items[i] in Window(db, high, round.now) && items[i].row.id !in done)
            && (forall i, j :: 0 <= i < j < |items| ==> items[i].row.id != items[j].row.id)
  {
    hide Window, DeliveryIn, Drained, Tally, WithinCheckpoint, CursorsSound, TracesDistinct, OutboxSound;
    FirstPage(current, high, round.now);
    var items, window := Page(current, OUTBOX_PAGE_SIZE, 0, high, round.now), Window(current, high, round.now);
    DrainedWindow(db, done, high, round);
    WindowIsTheDueItems(current, high, round.now);
    forall i | 0 <= i < |items| ensures items[i] in Window(db, high, round.now) && items[i].row.id !in done {
      assert items[i] == window[i] && window[i] in window;
    }
    forall i, j | 0 <= i < j < |items| ensures items[i].row.id != items[j].row.id {
      assert items[i] == window[i] && items[j] == window[j];
      assert window[i] in window && window[j] in window;
    }
  }

  lemma ItemFacts(db: Db, high: int, round: Round, item: Item, done: set<int>)
    requires Sound(db) && item in Window(db, high, round.now) && item.row.id !in done
    ensures item.row.id in WindowIds(db, high, round.now) && Active(item.row.state)
    ensures !VerdictIn(round, DeliveryIn(db, high, round), item).IncompleteBatch?
    ensures var delivery := DeliveryIn(db, high, round);
            Tally(db.outbox, db.events, done + {item.row.id}, delivery, round)
            == Counted(Tally(db.outbox, db.events, done, delivery, round), VerdictIn(round, delivery, item))
    ensures |done + {item.row.id}| == |done| + 1
    ensures forall report :: Total(Counted(report, VerdictIn(round, DeliveryIn(db, high, round), item))) == Total(report) + 1
  {
    hide Window, DeliveryIn, VerdictIn, Tally, FindEvent, WithinCheckpoint, CursorsSound, TracesDistinct, OutboxSound;
    WindowIsTheDueItems(db, high, round.now);
    BatchIsComplete(db, high, round, item);
    TallyAddsOne(db.outbox, db.events, done, item, DeliveryIn(db, high, round), round);
  }

  // ---- Counters ----

  /** How many of the rows that were due have changed in this way. */
  function Became(before: seq<OutboxRow>, after: seq<OutboxRow>, now: int, p: (OutboxRow, OutboxRow) -> bool): nat
    requires |before| == |after|
  {
    if before == [] then 0
    else
      var m := |before| - 1;
      Became(before[..m], after[..m], now, p)
      + if Active(before[m].state) && before[m].nextAttemptAt <= now && p(before[m], after[m]) then 1 else 0
  }

  function IntoState(state: OutboxState): (OutboxRow, OutboxRow) -> bool {
    (was: OutboxRow, row: OutboxRow) => row.state == state
  }

  function Failed(): (OutboxRow, OutboxRow) -> bool {
    (was: OutboxRow, row: OutboxRow) => row.state.FailedRetryable? && row.attempts == was.attempts + 1
  }

  function PutOff(): (OutboxRow, OutboxRow) -> bool {
    (was: OutboxRow, row: OutboxRow) => row.state == was.state && row.attempts == was.attempts
  }

  /** Each counter is the number of due rows that were so treated. */
  ghost predicate CountsOf(before: seq<OutboxRow>, after: seq<OutboxRow>, now: int, report: DispatchReport)
    requires |before| == |after|
  {
    && report.delivered == Became(before, after, now, IntoState(Delivered))
    && report.suppressed == Became(before, after, now, IntoState(Suppressed))
    && report.terminalFailures == Became(before, after, now, IntoState(FailedTerminal))
    && report.retryableFailures == Became(before, after, now, Failed())
    && report.deferred == Became(before, after, now, PutOff())
  }

  lemma OneMoreCounted(before: seq<OutboxRow>, after: seq<OutboxRow>, now: int, report: DispatchReport, verdict: Verdict)
    requires |before| == |after| > 0 && !verdict.IncompleteBatch?
    requires var m := |before| - 1;
             && CountsOf(before[..m], after[..m], now, report)
             && Active(before[m].state) && before[m].nextAttemptAt <= now && after[m] == Settled(before[m], verdict, now)
    ensures CountsOf(before, after, now, Counted(report, verdict))
  {
  }

  lemma {:induction false} TallyCounts(db: Db, high: int, round: Round, after: seq<OutboxRow>, n: nat)
    requires Sound(db) && HighWatermark(db.outbox, round.now) == Some(high)
    requires |after| == |db.outbox| && n <= |db.outbox|
    requires forall j :: 0 <= j < |after| ==>
               after[j] == RowAfter(db.outbox[j], db.events, high, DeliveryIn(db, high, round), round)
    ensures CountsOf(db.outbox[..n], after[..n], round.now,
                     Tally(db.outbox[..n], db.events, WindowIds(db, high, round.now), DeliveryIn(db, high, round), round))
  {
    hide Window, Settled, Sound, DeliveryIn, VerdictIn, FindEvent, CountsOf, Counted;
    if n == 0 {
      NothingCounted(round.now);
    } else {
      var m := n - 1;
      var row := db.outbox[m];
      TallyCounts(db, high, round, after, m);
      assert db.outbox[..n][..m] == db.outbox[..m] && after[..n][..m] == after[..m];
      DueInWindow(db, high, round, m);
      DueIsListed(db, high, round, m);
      var before := Tally(db.outbox[..m], db.events, WindowIds(db, high, round.now), DeliveryIn(db, high, round), round);
      if Due(row, high, round.now) {
        var item := Item(row, FindEvent(db.events, row.eventRow).value);
        BatchIsComplete(db, high, round, item);
        OneMoreCounted(db.outbox[..n], after[..n], round.now, before, VerdictIn(round, DeliveryIn(db, high, round), item));
      } else {
        NotCounted(db.outbox[..n], after[..n], round.now, before);
      }
    }
  }

  lemma NothingCounted(now: int)
    ensures CountsOf([], [], now, NOTHING_DISPATCHED)
  {
  }

  lemma NotCounted(before: seq<OutboxRow>, after: seq<OutboxRow>, now: int, report: DispatchReport)
    requires |before| == |after| > 0 && CountsOf(before[..|before| - 1], after[..|before| - 1], now, report)
    requires !(Active(before[|before| - 1].state) && before[|before| - 1].nextAttemptAt <= now)
    ensures CountsOf(before, after, now, report)
  {
  }

  lemma DueIsListed(db: Db, high: int, round: Round, j: nat)
    requires Sound(db) && HighWatermark(db.outbox, round.now) == Some(high) && j < |db.outbox|
    ensures Due(db.outbox[j], high, round.now) <==> db.outbox[j].id in WindowIds(db, high, round.now)
  {
    hide Window, WithinCheckpoint, CursorsSound, TracesDistinct, OutboxSound, Due;
    var row := db.outbox[j];
    WindowIsTheDueItems(db, high, round.now);
    DueInWindow(db, high, round, j);
    if Due(row, high, round.now) {
      InWindowIds(db, high, round.now, Item(row, FindEvent(db.events, row.eventRow).value));
    }
    if row.id in WindowIds(db, high, round.now) {
      var item :| item in Window(db, high, round.now) && item.row.id == row.id;
      AscendingUnique(db.outbox, OutboxId, item.row, row);
    }
  }

  /** The five counters of a dispatch say how many due rows went which way. */
  lemma CountersCountAnswers(db: Db, round: Round)
    requires Sound(db)
    ensures |DispatchOutbox(db, round).outbox| == |db.outbox|
    ensures CountsOf(db.outbox, DispatchOutbox(db, round).outbox, round.now, DispatchReportOf(db, round))
  {
    hide Sound, RowAfter, Tally, CountsOf, DeliveryIn, WindowIds;
    var high := HighWatermark(db.outbox, round.now);
    var after := DispatchOutbox(db, round).outbox;
    if high.Some? {
      TallyCounts(db, high.value, round, after, |after|);
      assert db.outbox[..|after|] == db.outbox && after[..|after|] == after;
    } else {
      NoneDue(db.outbox, round.now, |db.outbox|);
      assert db.outbox[..|db.outbox|] == db.outbox;
    }
  }

  lemma {:induction false} NoneDue(outbox: seq<OutboxRow>, now: int, n: nat)
    requires n <= |outbox| && HighWatermark(outbox, now).None?
    ensures CountsOf(outbox[..n], outbox[..n], now, NOTHING_DISPATCHED)
  {
    hide CountsOf, HighWatermark;
    if n == 0 {
      NothingCounted(now);
    } else {
      NoneDue(outbox, now, n - 1);
      assert outbox[n - 1] in outbox && outbox[..n][..n - 1] == outbox[..n - 1];
      NotCounted(outbox[..n], outbox[..n], now, NOTHING_DISPATCHED);
    }
  }

  /** The notices shown are those of the eligible items in window order, or one summary with their number. */
  lemma NoticesAreOfEligible(db: Db, high: int, round: Round)
    requires HighWatermark(db.outbox, round.now) == Some(high)
    ensures var w, notices := Window(db, high, round.now), NoticesOf(db, round);
            && |notices| == (if CountEligible(w, round) <= 3 then CountEligible(w, round) else 1)
            && (CountEligible(w, round) > 3 ==> notices[0] == BacklogSummary(CountEligible(w, round)))
            && forall i :: 0 <= i < |w| && Eligible(round.policy, w[i], round.now, round.localMinute)
                           && CountEligible(w, round) <= 3 ==>
                 && CountEligible(w[..i], round) < |notices|
                 && notices[CountEligible(w[..i], round)] == DecideItem(round.policy, w[i], round.now, round.localMinute).notice
  {
    hide Window, DecideItem, EligibleOf;
    EligibleInOrder(Window(db, high, round.now), round);
  }

  /**
   * One dispatch on its own: it ends, never reports an incomplete batch, settles the window exactly once,
   * counts every settled item, and shows one notice per eligible item up to three, else one summary.
   */
  method DispatchOutboxRound(desktop: DesktopState, notifier: Notifier, policy: Policy, now: int, localMinute: Option<int>)
    returns (result: Result<DispatchReport, DispatchError>)
    requires Sound(desktop.Contents())
    modifies desktop`outbox, notifier
    ensures var before := old(desktop.Contents());
            var round := Round(policy, now, localMinute, notifier.answers, old(|notifier.calls|));
            && desktop.Contents() == DispatchOutbox(before, round)
            && result == Ok(DispatchReportOf(before, round))
            && notifier.calls == old(notifier.calls) + NoticesOf(before, round)
            && (HighWatermark(before.outbox, now).Some? ==>
                  Total(result.value) == |Window(before, HighWatermark(before.outbox, now).value, now)|)
            && (HighWatermark(before.outbox, now).None? ==> Total(result.value) == 0 && desktop.Contents() == before)
            && (HighWatermark(before.outbox, now).Some? ==>
                  SettledAs(before, HighWatermark(before.outbox, now).value, round, desktop.Contents()))
            && |desktop.outbox| == |before.outbox| && CountsOf(before.outbox, desktop.outbox, now, result.value)
  {
    hide Sound, Window, EligibleOf, Deliver, NoticesShown, Tally, WindowIds, DispatchWindow, SettledAs, CountsOf;
    ghost var asked := Round(policy, now, localMinute, notifier.answers, |notifier.calls|);
    CountersCountAnswers(desktop.Contents(), asked);
    var high := HighWatermark(desktop.outbox, now);
    if high.None? {
      return Ok(NOTHING_DISPATCHED);
    }
    ghost var before := desktop.Contents();
    DispatchSettlesEachItem(before, high.value, asked);
    var round := Round(policy, now, localMinute, notifier.answers, |notifier.calls|);
    var eligibleCount, individual := ScanWindow(desktop, policy, high.value, now, localMinute);
    var delivery := ShowBatch(notifier, eligibleCount, individual, EligibleIn(before, high.value, round));
    result := DrainOutboxWindow(desktop, delivery, high.value, round);
  }

  function EligibleItem(policy: Policy, now: int, localMinute: Option<int>): Item -> bool {
    (item: Item) => Eligible(policy, item, now, localMinute)
  }

  lemma {:induction false} EligibleAreThose(policy: Policy, items: seq<Item>, now: int, localMinute: Option<int>)
    ensures |EligibleOf(policy, items, now, localMinute)| == |Filter(items, EligibleItem(policy, now, localMinute))|
  {
    if items != [] {
      EligibleAreThose(policy, items[..|items| - 1], now, localMinute);
    }
  }

  /** The notifier is called once per eligible due item while there are at most three, and once in all otherwise. */
  lemma NotifierCallCount(db: Db, round: Round)
    ensures match HighWatermark(db.outbox, round.now)
            case None => NoticesOf(db, round) == []
            case Some(high) =>
              var eligible := |Filter(Window(db, high, round.now), EligibleItem(round.policy, round.now, round.localMinute))|;
              |NoticesOf(db, round)| == if eligible <= 3 then eligible else 1
  {
    hide Window, Filter, EligibleOf;
    var high := HighWatermark(db.outbox, round.now);
    if high.Some? {
      EligibleAreThose(round.policy, Window(db, high.value, round.now), round.now, round.localMinute);
    }
  }
}
