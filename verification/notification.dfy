/** Desktop-local notification policy and the backlog flood rule. */
module Notification {
  import opened Base
  import opened Events

  const MINUTES_PER_DAY := 1440

  datatype QuietHours = QuietHours(startMinute: int, endMinute: int, questionsBypass: bool)

  predicate InQuietHours(quiet: QuietHours, minute: int) {
    if quiet.startMinute >= MINUTES_PER_DAY || quiet.endMinute >= MINUTES_PER_DAY || minute >= MINUTES_PER_DAY
       || quiet.startMinute == quiet.endMinute
    then false
    else if quiet.startMinute < quiet.endMinute then quiet.startMinute <= minute < quiet.endMinute
    else minute >= quiet.startMinute || minute < quiet.endMinute
  }

  datatype Policy = Policy(
    paused: bool,
    completionEnabled: bool,
    questionEnabled: bool,
    agentDetailsEnabled: bool,
    maxCompletionAge: int,
    quietHours: Option<QuietHours>)

  /** What the receiving desktop measures itself. */
  datatype Context = Context(receivedAt: int, now: int, localMinute: Option<int>, allowTerminalActivation: bool)

  datatype SuppressionReason =
    | Paused
    | CompletionDisabled
    | QuestionDisabled
    | LocalApprovalPresented
    | Quiet
    | CompletionExpired

  /** The inputs a notice is rendered from; the rendered text is not part of this model. */
  datatype Notice =
    | EventNotice(identifier: (Uuid, Uuid), event: Event, sourceLabel: string, context: Context, details: bool)
    | BacklogSummary(count: nat)

  datatype Decision = Notify(notice: Notice) | Suppress(reason: SuppressionReason)

  predicate TrustedAdapter(event: Event) {
    event.metadata.Some? && "aizu_adapter" in event.metadata.value
    && var adapter := event.metadata.value["aizu_adapter"];
       (event.agent == "codex" && adapter == Text("codex-v1"))
       || (event.agent == "claude-code" && adapter == Text("claude-code-v1"))
  }

  predicate ApprovalPresented(event: Event) {
    event.metadata.Some? && LOCAL_APPROVAL_PRESENTED_METADATA_KEY in event.metadata.value
    && event.metadata.value[LOCAL_APPROVAL_PRESENTED_METADATA_KEY] == Flag(true)
  }

  predicate QuietNow(policy: Policy, event: Event, context: Context) {
    policy.quietHours.Some? && context.localMinute.Some?
    && InQuietHours(policy.quietHours.value, context.localMinute.value)
    && !(event.kind.AgentQuestion? && policy.quietHours.value.questionsBypass)
  }

  function Decide(policy: Policy, event: Event, sourceLabel: string, context: Context): Decision {
    if policy.paused then Suppress(Paused)
    else if event.kind.TaskCompleted? && !policy.completionEnabled then Suppress(CompletionDisabled)
    else if event.kind.AgentQuestion? && !policy.questionEnabled then Suppress(QuestionDisabled)
    else if context.allowTerminalActivation && TrustedAdapter(event) && ApprovalPresented(event) then
      Suppress(LocalApprovalPresented)
    else if QuietNow(policy, event, context) then Suppress(Quiet)
    else
      var basis := if IsClockSkewed(event.occurredAt, context.receivedAt) then context.receivedAt else event.occurredAt;
      if event.kind.TaskCompleted? && context.now - basis > policy.maxCompletionAge then Suppress(CompletionExpired)
      else Notify(EventNotice((event.sourceId, event.id), event, sourceLabel, context, policy.agentDetailsEnabled))
  }

  /**
   * Quiet hours are the arc of the clock from the start minute to the end minute, across midnight or not; the ends
   * swapped give the rest of the clock. A minute that no clock shows turns them off.
   */
  lemma QuietHoursAreAnArc(quiet: QuietHours, minute: int)
    requires 0 <= quiet.startMinute && 0 <= quiet.endMinute && 0 <= minute
    ensures quiet.startMinute < 1440 && quiet.endMinute < 1440 && minute < 1440 ==>
              (InQuietHours(quiet, minute)
               <==> (minute - quiet.startMinute) % 1440 < (quiet.endMinute - quiet.startMinute) % 1440)
    ensures quiet.startMinute < 1440 && quiet.endMinute < 1440 && minute < 1440 && quiet.startMinute != quiet.endMinute ==>
              (InQuietHours(quiet.(startMinute := quiet.endMinute, endMinute := quiet.startMinute), minute)
               <==> !InQuietHours(quiet, minute))
    ensures quiet.startMinute >= 1440 || quiet.endMinute >= 1440 || minute >= 1440 ==> !InQuietHours(quiet, minute)
  {
    if quiet.startMinute < 1440 && quiet.endMinute < 1440 && minute < 1440 {
      WrapsOnce(minute - quiet.startMinute);
      WrapsOnce(quiet.endMinute - quiet.startMinute);
    }
  }

  lemma WrapsOnce(d: int)
    requires -MINUTES_PER_DAY < d < MINUTES_PER_DAY
    ensures d % MINUTES_PER_DAY == if d >= 0 then d else d + MINUTES_PER_DAY
  {
  }

  /** Only quiet hours put a decision off: outside them the same event is shown, or has meanwhile expired. */
  lemma QuietOnlyDelays(policy: Policy, event: Event, sourceLabel: string, context: Context)
    requires Decide(policy, event, sourceLabel, context) == Suppress(Quiet)
    ensures var later := Decide(policy.(quietHours := None), event, sourceLabel, context);
            later.Notify? || later == Suppress(CompletionExpired)
  {
  }

  /** At least as permissive in every setting. */
  ghost predicate Loosens(loose: Policy, strict: Policy) {
    && (loose.paused ==> strict.paused)
    && (strict.completionEnabled ==> loose.completionEnabled)
    && (strict.questionEnabled ==> loose.questionEnabled)
    && strict.maxCompletionAge <= loose.maxCompletionAge
    && (loose.quietHours.None? || loose.quietHours == strict.quietHours)
  }

  /** Loosening a policy never suppresses what was shown before. */
  lemma LoosePolicyShowsMore(strict: Policy, loose: Policy, event: Event, sourceLabel: string, context: Context)
    requires Loosens(loose, strict) && Decide(strict, event, sourceLabel, context).Notify?
    ensures Decide(loose, event, sourceLabel, context).Notify?
  {
  }

  /** A skewed sender clock cannot expire a completion early: what counts is when it was received. */
  lemma SkewedClockCountsFromReception(policy: Policy, event: Event, sourceLabel: string, context: Context)
    requires IsClockSkewed(event.occurredAt, context.receivedAt) && context.now - context.receivedAt <= policy.maxCompletionAge
    ensures Decide(policy, event, sourceLabel, context) != Suppress(CompletionExpired)
  {
  }

  datatype BacklogPlan = Individual(notices: seq<Notice>) | Summary(summary: Notice) | Empty

  function AggregateBacklogCount(count: nat, notices: seq<Notice>): BacklogPlan {
    if count == 0 then Empty else if count <= 3 then Individual(notices) else Summary(BacklogSummary(count))
  }

  datatype NotifyError = Denied | Retryable | TerminalFailure

  type NotifyResult = Option<NotifyError>

  /** The platform boundary: the k-th attempt of a run is answered by answers(k). */
  class Notifier {
    const answers: nat -> NotifyResult
    var calls: seq<Notice>

    constructor (answers: nat -> NotifyResult)
      ensures this.answers == answers && calls == []
    {
      this.answers := answers;
      calls := [];
    }

    method Show(notice: Notice) returns (result: NotifyResult)
      modifies this
      ensures calls == old(calls) + [notice] && result == answers(|old(calls)|)
    {
      result := answers(|calls|);
      calls := calls + [notice];
    }
  }
}
