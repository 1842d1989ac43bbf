/** The banner queue: what is shown, what still has to be presented, and who may close what. */
module Banners {
  import opened Base
  import opened Rows

  const MAX_VISIBLE_PASSIVE := 3
  const MAX_PRESENTATION_ATTEMPTS := 5

  /** content stands for the fields that no decision reads. */
  datatype Banner = Banner(id: int, approval: bool, activation: Option<string>, textSize: int, sound: Option<string>, content: string)

  datatype PendingSound = PendingSound(generation: nat, notificationId: int, sound: Option<string>)

  datatype Retry = Retry(attempts: nat, nextAttemptAt: Option<int>)

  datatype Display = Primary | FocusedWindow | Pointer | Secondary

  const NO_RETRY := Retry(0, None)

  datatype Queue = Queue(
    banners: seq<Banner>,
    claims: map<int, nat>,
    pendingSound: Option<PendingSound>,
    retry: Retry,
    nextClaim: nat,
    generation: nat,
    centered: bool,
    notificationDisplay: Display,
    approvalDisplay: Display,
    dirty: bool,
    scheduled: bool)

  const EMPTY_QUEUE := Queue([], map[], None, NO_RETRY, 0, 0, true, Primary, Primary, false, false)

  datatype BannerError = ApprovalAlreadyVisible | ActivationUnavailable | ActivationInProgress | ActivationNotCurrent

  datatype Claim = Claim(id: int, token: nat)

  function RetryDelay(attempts: nat): int {
    if attempts <= 1 then 250 else if attempts == 2 then 1000 else if attempts == 3 then 4000 else 15_000
  }

  function IndexOf(banners: seq<Banner>, id: int): (r: Option<nat>)
    ensures r.Some? ==> r.value < |banners| && banners[r.value].id == id && forall i :: 0 <= i < r.value ==> banners[i].id != id
    ensures r.None? ==> forall i :: 0 <= i < |banners| ==> banners[i].id != id
  {
    if banners == [] then None
    else if banners[0].id == id then Some(0)
    else
      match IndexOf(banners[1..], id)
      case None => None
      case Some(i) => Some(i + 1)
  }

  function FirstPassive(banners: seq<Banner>): (r: Option<nat>)
    ensures r.Some? ==> r.value < |banners| && !banners[r.value].approval
  {
    if banners == [] then None
    else if !banners[0].approval then Some(0)
    else
      match FirstPassive(banners[1..])
      case None => None
      case Some(i) => Some(i + 1)
  }

  predicate ApprovalVisible(banners: seq<Banner>) {
    exists b :: b in banners && b.approval
  }

  function IsPassive(): Banner -> bool {
    (b: Banner) => !b.approval
  }

  function Passive(banners: seq<Banner>): seq<Banner> {
    Filter(banners, IsPassive())
  }

  function NotCalled(id: int): Banner -> bool {
    (b: Banner) => b.id != id
  }

  // ---- Queue operations ----

  /** A new generation takes any pending sound along and starts its presentation attempts afresh. */
  function NextGeneration(q: Queue): Queue {
    q.(generation := q.generation + 1,
       pendingSound := if q.pendingSound.Some? then Some(q.pendingSound.value.(generation := q.generation + 1)) else None,
       retry := NO_RETRY,
       dirty := true)
  }

  /** Makes room for one more passive banner: the oldest passive one goes, with its claim. */
  function EvictFor(q: Queue, b: Banner): Queue {
    if !b.approval && |Passive(q.banners)| >= MAX_VISIBLE_PASSIVE && FirstPassive(q.banners).Some? then
      var i := FirstPassive(q.banners).value;
      q.(banners := q.banners[..i] + q.banners[i + 1..], claims := q.claims - {q.banners[i].id})
    else q
  }

  function Push(q: Queue, b: Banner): (Queue, Result<(), BannerError>) {
    var announced := q.(generation := q.generation + 1,
                        pendingSound := Some(PendingSound(q.generation + 1, b.id, b.sound)),
                        retry := NO_RETRY);
    match IndexOf(q.banners, b.id)
    case Some(i) => (announced.(claims := q.claims - {b.id}, banners := q.banners[i := b], dirty := true), Ok(()))
    case None =>
      if b.approval && ApprovalVisible(q.banners) then (announced, Err(ApprovalAlreadyVisible))
      else
        var room := EvictFor(announced, b);
        (room.(banners := room.banners + [b], dirty := true), Ok(()))
  }

  function RemoveBanner(q: Queue, id: int): Queue {
    var kept := Filter(q.banners, NotCalled(id));
    if |kept| == |q.banners| then q
    else
      var silenced := if q.pendingSound.Some? && q.pendingSound.value.notificationId == id then q.(pendingSound := None) else q;
      NextGeneration(silenced.(banners := kept))
  }

  function Dismiss(q: Queue, id: int): Queue {
    RemoveBanner(q.(claims := q.claims - {id}), id)
  }

  function ClaimActivation(q: Queue, id: int): (Queue, Result<(Claim, string), BannerError>) {
    var found := IndexOf(q.banners, id);
    if found.None? || q.banners[found.value].activation.None? then (q, Err(ActivationUnavailable))
    else if id in q.claims then (q, Err(ActivationInProgress))
    else
      (q.(nextClaim := q.nextClaim + 1, claims := q.claims[id := q.nextClaim + 1]),
       Ok((Claim(id, q.nextClaim + 1), q.banners[found.value].activation.value)))
  }

  predicate Holds(q: Queue, claim: Claim) {
    claim.id in q.claims && q.claims[claim.id] == claim.token
  }

  function CancelActivation(q: Queue, claim: Claim): Queue {
    if Holds(q, claim) then q.(claims := q.claims - {claim.id}) else q
  }

  /** Ok says whether the queue is empty afterwards. */
  function CompleteActivation(q: Queue, claim: Claim): (Queue, Result<bool, BannerError>) {
    if !Holds(q, claim) then
      (q, if IndexOf(q.banners, claim.id).Some? then Err(ActivationNotCurrent) else Ok(q.banners == []))
    else
      var after := RemoveBanner(q.(claims := q.claims - {claim.id}), claim.id);
      (after, Ok(after.banners == []))
  }

  function Resized(banners: seq<Banner>, textSize: int): seq<Banner> {
    seq(|banners|, i requires 0 <= i < |banners| => banners[i].(textSize := textSize))
  }

  function UpdateTextSize(q: Queue, textSize: int): Queue {
    if forall b :: b in q.banners ==> b.textSize == textSize then q
    else NextGeneration(q.(banners := Resized(q.banners, textSize)))
  }

  function UpdateApprovalCentering(q: Queue, centered: bool): Queue {
    if q.centered == centered then q
    else if !ApprovalVisible(q.banners) then q.(centered := centered)
    else NextGeneration(q.(centered := centered))
  }

  function UpdateNotificationDisplay(q: Queue, display: Display): Queue {
    if q.notificationDisplay == display then q
    else if q.banners == [] || ApprovalVisible(q.banners) then q.(notificationDisplay := display)
    else NextGeneration(q.(notificationDisplay := display))
  }

  function UpdateApprovalDisplay(q: Queue, display: Display): Queue {
    if q.approvalDisplay == display then q
    else if !ApprovalVisible(q.banners) then q.(approvalDisplay := display)
    else NextGeneration(q.(approvalDisplay := display))
  }

  function DismissAll(q: Queue, banners: seq<Banner>): Queue {
    if banners == [] then q else Dismiss(DismissAll(q, banners[..|banners| - 1]), banners[|banners| - 1].id)
  }

  function ClearPassive(q: Queue): Queue {
    DismissAll(q, Passive(q.banners))
  }

  // ---- Presentation ----

  predicate RetryDue(q: Queue, now: int) {
    q.retry.nextAttemptAt.None? || now >= q.retry.nextAttemptAt.value
  }

  function BeginPresentation(q: Queue, now: int): (Queue, Option<nat>) {
    if q.scheduled || !RetryDue(q, now) || !q.dirty then (q, None)
    else (q.(scheduled := true, dirty := false), Some(q.generation))
  }

  function TakePendingSound(q: Queue, generation: nat): (Queue, Option<string>) {
    if q.pendingSound.Some? && q.pendingSound.value.generation == generation then
      (q.(pendingSound := None), q.pendingSound.value.sound)
    else (q, None)
  }

  function FinishPresentation(q: Queue, generation: nat, succeeded: bool, now: int): Queue {
    if q.generation != generation then q.(scheduled := false)
    else if succeeded then q.(retry := NO_RETRY, scheduled := false)
    else
      var attempts := q.retry.attempts + 1;
      if attempts < MAX_PRESENTATION_ATTEMPTS then
        q.(retry := Retry(attempts, Some(now + RetryDelay(attempts))), dirty := true, scheduled := false)
      else
        TakePendingSound(q.(retry := Retry(attempts, None), scheduled := false), generation).0
  }

  // ---- Runs ----

  datatype Step =
    | DoPush(banner: Banner)
    | DoDismiss(id: int)
    | DoClaim(id: int)
    | DoCancel(claim: Claim)
    | DoComplete(claim: Claim)
    | DoTextSize(textSize: int)
    | DoCentering(centered: bool)
    | DoNotificationDisplay(display: Display)
    | DoApprovalDisplay(display: Display)
    | DoClearPassive
    | DoBegin(now: int)
    | DoTakeSound(generation: nat)
    | DoFinish(succeeded: bool, now: int)

  /**
   * The queue with its history: the generation being presented, the last one presented successfully, how often the
   * current one has failed, which push each queued banner came from, and what each claim was taken on.
   */
  datatype World = World(
    queue: Queue,
    inFlight: Option<nat>,
    presented: nat,
    failures: nat,
    pushes: nat,
    births: map<int, nat>,
    taken: map<nat, (int, nat)>)

  const FIRST_WORLD := World(EMPTY_QUEUE, None, 0, 0, 0, map[], map[])

  function ApplyStep(q: Queue, step: Step, inFlight: Option<nat>): Queue {
    match step
    case DoPush(b) => Push(q, b).0
    case DoDismiss(id) => Dismiss(q, id)
    case DoClaim(id) => ClaimActivation(q, id).0
    case DoCancel(claim) => CancelActivation(q, claim)
    case DoComplete(claim) => CompleteActivation(q, claim).0
    case DoTextSize(size) => UpdateTextSize(q, size)
    case DoCentering(centered) => UpdateApprovalCentering(q, centered)
    case DoNotificationDisplay(display) => UpdateNotificationDisplay(q, display)
    case DoApprovalDisplay(display) => UpdateApprovalDisplay(q, display)
    case DoClearPassive => ClearPassive(q)
    case DoBegin(now) => BeginPresentation(q, now).0
    case DoTakeSound(generation) => TakePendingSound(q, generation).0
    case DoFinish(succeeded, now) => if inFlight.Some? then FinishPresentation(q, inFlight.value, succeeded, now) else q
  }

  /** Only a presentation that was begun finishes. */
  function Advance(w: World, step: Step): World {
    var q := ApplyStep(w.queue, step, w.inFlight);
    var finishing := step.DoFinish? && w.inFlight.Some?;
    var failed := finishing && !step.succeeded && w.inFlight.value == w.queue.generation;
    World(q,
          if finishing then None else if step.DoBegin? then
            (if BeginPresentation(w.queue, step.now).1.Some? then BeginPresentation(w.queue, step.now).1 else w.inFlight)
          else w.inFlight,
          if finishing && step.succeeded then w.inFlight.value else w.presented,
          if q.generation != w.queue.generation then 0
          else if failed then w.failures + 1
          else if finishing && step.succeeded && w.inFlight.value == w.queue.generation then 0
          else w.failures,
          if step.DoPush? then w.pushes + 1 else w.pushes,
          if step.DoPush? && Push(w.queue, step.banner).1.Ok? then w.births[step.banner.id := w.pushes] else w.births,
          if step.DoClaim? && ClaimActivation(w.queue, step.id).1.Ok? && step.id in w.births
          then w.taken[w.queue.nextClaim + 1 := (step.id, w.births[step.id])] else w.taken)
  }

  function Run(steps: seq<Step>): World {
    if steps == [] then FIRST_WORLD else Advance(Run(steps[..|steps| - 1]), steps[|steps| - 1])
  }

  predicate Rejected(q: Queue, step: Step) {
    step.DoPush? && Push(q, step.banner).1.Err?
  }

  /** Nothing that should be on screen has been forgotten. */
  predicate NotLost(w: World) {
    || w.queue.dirty
    || w.inFlight == Some(w.queue.generation)
    || w.presented == w.queue.generation
    || w.failures == MAX_PRESENTATION_ATTEMPTS
  }

  ghost predicate PresentationSound(w: World) {
    && (w.queue.scheduled <==> w.inFlight.Some?)
    && (w.inFlight.Some? ==> w.presented <= w.inFlight.value <= w.queue.generation)
    && (w.inFlight == Some(w.queue.generation) ==> !w.queue.dirty)
    && w.presented <= w.queue.generation
    && w.failures == w.queue.retry.attempts <= MAX_PRESENTATION_ATTEMPTS
    && (w.failures == MAX_PRESENTATION_ATTEMPTS ==> !w.queue.dirty && w.inFlight != Some(w.queue.generation))
  }

  /** What a step may do to the presentation fields when it is not itself a presentation step. */
  ghost predicate LeavesOrRenews(a: Queue, b: Queue) {
    && b.scheduled == a.scheduled
    && ((b.generation == a.generation && b.dirty == a.dirty && b.retry == a.retry)
        || (b.generation > a.generation && b.dirty && b.retry == NO_RETRY))
  }

  lemma RemoveLeavesOrRenews(q: Queue, id: int)
    ensures LeavesOrRenews(q, RemoveBanner(q, id)) && LeavesOrRenews(q, Dismiss(q, id))
  {
    hide Filter;
  }

  lemma {:induction false} DismissAllLeavesOrRenews(q: Queue, banners: seq<Banner>)
    ensures LeavesOrRenews(q, DismissAll(q, banners))
  {
    hide Dismiss;
    if banners != [] {
      DismissAllLeavesOrRenews(q, banners[..|banners| - 1]);
      RemoveLeavesOrRenews(DismissAll(q, banners[..|banners| - 1]), banners[|banners| - 1].id);
    }
  }

  lemma StepLeavesOrRenews(q: Queue, step: Step, inFlight: Option<nat>)
    requires !step.DoBegin? && !step.DoFinish? && !Rejected(q, step)
    ensures LeavesOrRenews(q, ApplyStep(q, step, inFlight))
  {
    hide Filter, RemoveBanner, Dismiss, DismissAll, Passive, IndexOf, FirstPassive, Resized;
    match step
    case DoDismiss(id) => RemoveLeavesOrRenews(q, id);
    case DoComplete(claim) => RemoveLeavesOrRenews(q.(claims := q.claims - {claim.id}), claim.id);
    case DoClearPassive => DismissAllLeavesOrRenews(q, Passive(q.banners));
    case _ =>
  }

  lemma StepKeepsPresentation(w: World, step: Step)
    requires PresentationSound(w)
    ensures PresentationSound(Advance(w, step))
    ensures !Rejected(w.queue, step) && Advance(w, step).queue.generation != w.queue.generation ==> NotLost(Advance(w, step))
    ensures !Rejected(w.queue, step) && Advance(w, step).queue.generation == w.queue.generation ==>
              (NotLost(Advance(w, step)) <==> NotLost(w))
    ensures Rejected(w.queue, step) ==> (NotLost(Advance(w, step)) <==> w.queue.dirty)
  {
    hide Push, Dismiss, ClaimActivation, CancelActivation, CompleteActivation, UpdateTextSize, UpdateApprovalCentering;
    hide UpdateNotificationDisplay, UpdateApprovalDisplay, ClearPassive;
    if Rejected(w.queue, step) {
      RejectionOnlyAnnounces(w.queue, step.banner);
    } else if !step.DoBegin? && !step.DoFinish? {
      StepLeavesOrRenews(w.queue, step, w.inFlight);
    }
  }

  lemma RejectionOnlyAnnounces(q: Queue, b: Banner)
    requires Push(q, b).1.Err?
    ensures var after := Push(q, b).0;
            && after.generation == q.generation + 1 && after.retry == NO_RETRY
            && after.dirty == q.dirty && after.scheduled == q.scheduled && after.banners == q.banners
  {
    hide IndexOf, EvictFor;
  }

  /** In every run, rejected pushes included, the presentation fields tell the truth about the history. */
  lemma {:induction false} PresentationStaysSound(steps: seq<Step>)
    ensures PresentationSound(Run(steps))
  {
    hide Advance, PresentationSound, NotLost, Rejected;
    if steps == [] {
      FirstWorldIsSound();
    } else {
      PresentationStaysSound(steps[..|steps| - 1]);
      StepKeepsPresentation(Run(steps[..|steps| - 1]), steps[|steps| - 1]);
    }
  }

  lemma FirstWorldIsSound()
    ensures PresentationSound(FIRST_WORLD) && NotLost(FIRST_WORLD)
  {
  }

  /** Step i rejected an approval while no presentation was due. */
  ghost predicate RejectedIdle(steps: seq<Step>, i: nat) {
    i < |steps| && Rejected(Run(steps[..i]).queue, steps[i]) && !Run(steps[..i]).queue.dirty
  }

  /** Step j was rejected or left the generation as it was. */
  ghost predicate RenewsNothing(steps: seq<Step>, j: nat)
    requires j < |steps|
  {
    Rejected(Run(steps[..j]).queue, steps[j]) || Run(steps[..j + 1]).queue.generation == Run(steps[..j]).queue.generation
  }

  /** Since step i no accepted operation has renewed the generation. */
  ghost predicate NothingRenewedSince(steps: seq<Step>, i: nat) {
    forall j :: i < j < |steps| ==> RenewsNothing(steps, j)
  }

  ghost predicate LostAt(steps: seq<Step>, i: nat) {
    RejectedIdle(steps, i) && NothingRenewedSince(steps, i)
  }

  /** What is said about a step does not depend on later ones. */
  lemma InPrefix(steps: seq<Step>, i: nat)
    requires i < |steps| - 1
    ensures var front := steps[..|steps| - 1];
            && (RejectedIdle(front, i) <==> RejectedIdle(steps, i))
            && (RenewsNothing(front, i) <==> RenewsNothing(steps, i))
  {
    hide Run, Rejected;
    var front := steps[..|steps| - 1];
    assert front[..i] == steps[..i] && front[..i + 1] == steps[..i + 1] && front[i] == steps[i];
  }

  lemma LostAtOneMore(steps: seq<Step>, i: nat)
    requires steps != [] && i < |steps| - 1
    ensures var m := |steps| - 1;
            LostAt(steps, i) <==> LostAt(steps[..m], i) && RenewsNothing(steps, m)
  {
    hide RejectedIdle, RenewsNothing;
    var m := |steps| - 1;
    InPrefix(steps, i);
    forall j | i < j < m ensures RenewsNothing(steps[..m], j) <==> RenewsNothing(steps, j) {
      InPrefix(steps, j);
    }
  }

  lemma LastRenews(steps: seq<Step>)
    requires steps != []
    ensures var m := |steps| - 1;
            RenewsNothing(steps, m) <==>
              Rejected(Run(steps[..m]).queue, steps[m])
              || Run(steps).queue.generation == Run(steps[..m]).queue.generation
  {
    hide Run, Rejected;
    assert steps[..|steps| - 1 + 1] == steps;
  }

  /**
   * The exact condition, over every run: what should be on screen has been forgotten if and only if a second approval
   * was rejected while no presentation was due, and nothing accepted has renewed the generation since.
   */
  lemma {:induction false} PresentationLostIff(steps: seq<Step>)
    ensures !NotLost(Run(steps)) <==> exists i: nat :: LostAt(steps, i)
  {
    hide Advance, PresentationSound, NotLost, Rejected, LostAt, RenewsNothing;
    if steps == [] {
      FirstWorldIsSound();
      NeverLostAtFirst();
    } else {
      var m := |steps| - 1;
      var w := Run(steps[..m]);
      PresentationLostIff(steps[..m]);
      PresentationStaysSound(steps[..m]);
      StepKeepsPresentation(w, steps[m]);
      LostNow(steps);
      LastRenews(steps);
      LostIsIdle(w);
      forall i: nat | LostAt(steps, i) ensures i <= m { LostAtBound(steps, i); }
      forall i: nat | LostAt(steps[..m], i) ensures i < m { LostAtBound(steps[..m], i); }
      forall i: nat | i < m
        ensures LostAt(steps, i) <==> LostAt(steps[..m], i) && RenewsNothing(steps, m)
      {
        LostAtOneMore(steps, i);
      }
    }
  }

  lemma NeverLostAtFirst()
    ensures forall i: nat :: !LostAt([], i)
  {
  }

  lemma LostAtBound(steps: seq<Step>, i: nat)
    requires LostAt(steps, i)
    ensures i < |steps|
  {
  }

  lemma LostNow(steps: seq<Step>)
    requires steps != []
    ensures var m := |steps| - 1;
            LostAt(steps, m) <==> Rejected(Run(steps[..m]).queue, steps[m]) && !Run(steps[..m]).queue.dirty
  {
    hide Run, Rejected;
  }

  lemma LostIsIdle(w: World)
    ensures !NotLost(w) ==> !w.queue.dirty
  {
  }

  /** In every run without a rejected push, the current generation is dirty, in flight, presented or given up after five failures. */
  lemma NoPresentationIsLost(steps: seq<Step>)
    requires forall i :: 0 <= i < |steps| ==> !Rejected(Run(steps[..i]).queue, steps[i])
    ensures NotLost(Run(steps))
  {
    hide Run, NotLost, Rejected;
    PresentationLostIff(steps);
  }

  /**
   * A rejected approval announces a generation it never asks to present: in every reachable state that loses a
   * presentation if and only if none was due.
   */
  lemma RejectedPushLosesIff(steps: seq<Step>, b: Banner)
    requires Push(Run(steps).queue, b).1.Err?
    ensures var w, after := Run(steps), Advance(Run(steps), DoPush(b));
            && after.queue.generation == w.queue.generation + 1 && after.queue.banners == w.queue.banners
            && (NotLost(after) <==> w.queue.dirty)
  {
    hide Push, NotLost, PresentationSound, Run;
    PresentationStaysSound(steps);
    StepKeepsPresentation(Run(steps), DoPush(b));
    RejectionOnlyAnnounces(Run(steps).queue, b);
  }

  /** It happens: one approval shown, a second one rejected, and nothing will show the current generation. */
  lemma SecondApprovalLosesPresentation(a: Banner, b: Banner)
    requires a.approval && b.approval && a.id != b.id
    ensures var steps := [DoPush(a), DoBegin(0), DoFinish(true, 0), DoPush(b)];
            Rejected(Run(steps[..3]).queue, steps[3]) && !NotLost(Run(steps))
  {
    var steps := [DoPush(a), DoBegin(0), DoFinish(true, 0), DoPush(b)];
    RunStep(steps, 0);
    RunStep(steps, 1);
    RunStep(steps, 2);
    RunStep(steps, 3);
    assert steps[..4] == steps && steps[..0] == [];
    hide Run;
    assert a in [a];
    var shown := Advance(FIRST_WORLD, DoPush(a));
    assert shown.queue.banners == [a] && shown.queue.dirty;
  }

  lemma RunStep(steps: seq<Step>, i: nat)
    requires i < |steps|
    ensures Run(steps[..i + 1]) == Advance(Run(steps[..i]), steps[i])
    ensures Run([]) == FIRST_WORLD
  {
    assert steps[..i + 1][..i] == steps[..i];
  }

  // ---- Claims ----

  ghost predicate Queued(banners: seq<Banner>, id: int) {
    exists b :: b in banners && b.id == id
  }

  ghost predicate IdsDistinct(banners: seq<Banner>) {
    forall i, j :: 0 <= i < j < |banners| ==> banners[i].id != banners[j].id
  }

  /** Claims name queued banners, one token each, all handed out already. */
  ghost predicate ClaimsSound(q: Queue) {
    && IdsDistinct(q.banners)
    && (forall id :: id in q.claims ==> Queued(q.banners, id) && q.claims[id] <= q.nextClaim)
    && (forall a, b | a in q.claims && b in q.claims :: q.claims[a] == q.claims[b] ==> a == b)
  }

  /** Every claim in force was taken on the very push its banner comes from. */
  ghost predicate HistorySound(w: World) {
    && (forall id :: Queued(w.queue.banners, id) ==> id in w.births && w.births[id] < w.pushes)
    && (forall id :: id in w.queue.claims ==>
          id in w.births && w.queue.claims[id] in w.taken && w.taken[w.queue.claims[id]] == (id, w.births[id]))
    && (forall token :: token in w.taken ==> token <= w.queue.nextClaim)
  }

  /** Banners and claims may only have gone away. */
  ghost predicate OnlyFewer(a: Queue, b: Queue) {
    && b.nextClaim == a.nextClaim
    && (forall id :: Queued(b.banners, id) ==> Queued(a.banners, id))
    && (forall id :: id in b.claims ==> id in a.claims && b.claims[id] == a.claims[id])
  }

  lemma FewerDistinct(banners: seq<Banner>, id: int)
    requires IdsDistinct(banners)
    ensures IdsDistinct(Filter(banners, NotCalled(id)))
    ensures forall other :: Queued(Filter(banners, NotCalled(id)), other) <==> Queued(banners, other) && other != id
    decreases |banners|
  {
    if banners != [] {
      var m := |banners| - 1;
      FewerDistinct(banners[..m], id);
      assert forall other :: Queued(banners, other) <==> Queued(banners[..m], other) || banners[m].id == other;
      var kept := Filter(banners[..m], NotCalled(id));
      forall b | b in kept ensures b.id != banners[m].id {
        assert b in banners[..m];
      }
    }
  }

  /** A banner leaves together with its claim. */
  lemma RemovalKeepsClaims(q: Queue, id: int)
    requires ClaimsSound(q)
    ensures var after := RemoveBanner(q.(claims := q.claims - {id}), id);
            ClaimsSound(after) && OnlyFewer(q, after) && !Queued(after.banners, id)
  {
    hide Filter;
    FewerDistinct(q.banners, id);
    NotCalledKeepsAll(q.banners, id);
  }

  lemma NotCalledKeepsAll(banners: seq<Banner>, id: int)
    ensures |Filter(banners, NotCalled(id))| == |banners| ==> Filter(banners, NotCalled(id)) == banners
    ensures |Filter(banners, NotCalled(id))| == |banners| <==> !Queued(banners, id)
  {
    hide Filter;
    if |Filter(banners, NotCalled(id))| == |banners| {
      FilterUnchanged(banners, NotCalled(id));
    }
    if !Queued(banners, id) {
      FilterAll(banners, NotCalled(id));
    }
  }

  lemma {:induction false} DismissAllKeepsClaims(q: Queue, banners: seq<Banner>)
    requires ClaimsSound(q)
    ensures ClaimsSound(DismissAll(q, banners)) && OnlyFewer(q, DismissAll(q, banners))
  {
    hide ClaimsSound, RemoveBanner, Queued;
    if banners != [] {
      DismissAllKeepsClaims(q, banners[..|banners| - 1]);
      RemovalKeepsClaims(DismissAll(q, banners[..|banners| - 1]), banners[|banners| - 1].id);
    }
  }

  lemma ReplacedKeepsClaims(q: Queue, b: Banner, i: nat)
    requires ClaimsSound(q) && IndexOf(q.banners, b.id) == Some(i)
    ensures ClaimsSound(Push(q, b).0)
    ensures forall id :: Queued(Push(q, b).0.banners, id) <==> Queued(q.banners, id)
  {
    hide IndexOf;
    var banners := q.banners[i := b];
    forall id ensures Queued(banners, id) <==> Queued(q.banners, id) {
      if x :| x in q.banners && x.id == id {
        var j :| 0 <= j < |q.banners| && q.banners[j] == x;
        assert banners[j].id == id && banners[j] in banners;
      }
      if x :| x in banners && x.id == id {
        var j :| 0 <= j < |banners| && banners[j] == x;
        assert q.banners[j].id == id && q.banners[j] in q.banners;
      }
    }
  }

  lemma WithoutOne(banners: seq<Banner>, i: nat)
    requires IdsDistinct(banners) && i < |banners|
    ensures IdsDistinct(banners[..i] + banners[i + 1..])
    ensures forall id :: Queued(banners[..i] + banners[i + 1..], id) <==> Queued(banners, id) && id != banners[i].id
  {
    var kept := banners[..i] + banners[i + 1..];
    forall id ensures Queued(kept, id) <==> Queued(banners, id) && id != banners[i].id {
      if x :| x in banners && x.id == id && id != banners[i].id {
        var j :| 0 <= j < |banners| && banners[j] == x;
        assert if j < i then kept[j] == x else kept[j - 1] == x;
      }
      if x :| x in kept && x.id == id {
        var j :| 0 <= j < |kept| && kept[j] == x;
        assert if j < i then banners[j] == x else banners[j + 1] == x;
      }
    }
  }

  lemma EvictionKeepsClaims(q: Queue, b: Banner)
    requires ClaimsSound(q)
    ensures ClaimsSound(EvictFor(q, b)) && OnlyFewer(q, EvictFor(q, b))
  {
    hide Passive, FirstPassive, IdsDistinct, Queued;
    if EvictFor(q, b) != q {
      WithoutOne(q.banners, FirstPassive(q.banners).value);
    }
  }

  lemma AppendKeepsClaims(q: Queue, b: Banner)
    requires ClaimsSound(q) && !Queued(q.banners, b.id)
    ensures ClaimsSound(q.(banners := q.banners + [b]))
    ensures forall id :: Queued(q.banners + [b], id) <==> Queued(q.banners, id) || id == b.id
    ensures b.id !in q.claims
  {
    var banners := q.banners + [b];
    assert forall x :: x in banners <==> x in q.banners || x == b;
    forall i, j | 0 <= i < j < |banners| ensures banners[i].id != banners[j].id {
      if j == |q.banners| { assert banners[i] in q.banners; }
    }
    assert b in banners;
  }

  /** After an accepted push its banner is queued without a claim, and everything else only got fewer. */
  lemma PushKeepsClaims(q: Queue, b: Banner)
    requires ClaimsSound(q)
    ensures var (after, result) := Push(q, b);
            && ClaimsSound(after)
            && after.nextClaim == q.nextClaim
            && (forall id :: id in after.claims ==> id in q.claims && after.claims[id] == q.claims[id])
            && (result.Err? ==> after.banners == q.banners && after.claims == q.claims)
            && (result.Ok? ==>
                  && b.id !in after.claims && Queued(after.banners, b.id)
                  && forall id :: Queued(after.banners, id) ==> Queued(q.banners, id) || id == b.id)
  {
    hide IndexOf, EvictFor;
    match IndexOf(q.banners, b.id)
    case Some(i) =>
      ReplacedKeepsClaims(q, b, i);
      assert q.banners[i] in q.banners;
    case None =>
      var announced := q.(generation := q.generation + 1,
                          pendingSound := Some(PendingSound(q.generation + 1, b.id, b.sound)), retry := NO_RETRY);
      NotIndexed(q.banners, b.id);
      EvictionKeepsClaims(announced, b);
      AppendKeepsClaims(EvictFor(announced, b), b);
  }

  lemma NotIndexed(banners: seq<Banner>, id: int)
    ensures IndexOf(banners, id).None? <==> !Queued(banners, id)
  {
    if IndexOf(banners, id).Some? { assert banners[IndexOf(banners, id).value] in banners; }
  }

  lemma ResizedKeepsIds(banners: seq<Banner>, textSize: int)
    ensures IdsDistinct(Resized(banners, textSize)) <==> IdsDistinct(banners)
    ensures forall id :: Queued(Resized(banners, textSize), id) <==> Queued(banners, id)
  {
    var resized := Resized(banners, textSize);
    assert forall i :: 0 <= i < |banners| ==> resized[i].id == banners[i].id;
    forall id ensures Queued(resized, id) <==> Queued(banners, id) {
      if x :| x in banners && x.id == id {
        var j :| 0 <= j < |banners| && banners[j] == x;
        assert resized[j] in resized;
      }
      if x :| x in resized && x.id == id {
        var j :| 0 <= j < |resized| && resized[j] == x;
        assert banners[j] in banners;
      }
    }
  }

  lemma SameBannersKeepClaims(a: Queue, b: Queue)
    requires ClaimsSound(a) && b.banners == a.banners && b.claims == a.claims && b.nextClaim == a.nextClaim
    ensures ClaimsSound(b) && OnlyFewer(a, b)
  {
  }

  lemma CancelKeepsClaims(q: Queue, claim: Claim)
    requires ClaimsSound(q)
    ensures ClaimsSound(CancelActivation(q, claim)) && OnlyFewer(q, CancelActivation(q, claim))
  {
    hide Queued, IdsDistinct;
  }

  lemma ResizeKeepsClaims(q: Queue, textSize: int)
    requires ClaimsSound(q)
    ensures ClaimsSound(UpdateTextSize(q, textSize)) && OnlyFewer(q, UpdateTextSize(q, textSize))
  {
    hide Queued, IdsDistinct, Resized;
    ResizedKeepsIds(q.banners, textSize);
  }

  /** Steps that neither push nor claim only take banners and claims away. */
  lemma StepOnlyFewer(q: Queue, step: Step, inFlight: Option<nat>)
    requires ClaimsSound(q) && !step.DoPush? && !step.DoClaim?
    ensures ClaimsSound(ApplyStep(q, step, inFlight)) && OnlyFewer(q, ApplyStep(q, step, inFlight))
  {
    hide RemoveBanner, DismissAll, Passive, IndexOf, CancelActivation, UpdateTextSize, ClaimsSound, OnlyFewer;
    SameBannersKeepClaims(q, q);
    match step
    case DoDismiss(id) => RemovalKeepsClaims(q, id);
    case DoCancel(claim) => CancelKeepsClaims(q, claim);
    case DoComplete(claim) => RemovalKeepsClaims(q, claim.id);
    case DoClearPassive => DismissAllKeepsClaims(q, Passive(q.banners));
    case DoTextSize(size) => ResizeKeepsClaims(q, size);
    case _ => SameBannersKeepClaims(q, ApplyStep(q, step, inFlight));
  }

  lemma ClaimKeepsSound(w: World, id: int)
    requires ClaimsSound(w.queue) && HistorySound(w)
    ensures ClaimsSound(Advance(w, DoClaim(id)).queue) && HistorySound(Advance(w, DoClaim(id)))
  {
    hide IndexOf, Queued, IdsDistinct;
    NotIndexed(w.queue.banners, id);
  }

  lemma PushKeepsSound(w: World, b: Banner)
    requires ClaimsSound(w.queue) && HistorySound(w)
    ensures ClaimsSound(Advance(w, DoPush(b)).queue) && HistorySound(Advance(w, DoPush(b)))
  {
    hide Push, Queued, IdsDistinct;
    PushKeepsClaims(w.queue, b);
  }

  lemma StepKeepsClaims(w: World, step: Step)
    requires ClaimsSound(w.queue) && HistorySound(w)
    ensures ClaimsSound(Advance(w, step).queue) && HistorySound(Advance(w, step))
  {
    hide ApplyStep, Queued, IdsDistinct, Push, ClaimActivation, BeginPresentation;
    match step
    case DoPush(b) => PushKeepsSound(w, b);
    case DoClaim(id) => ClaimKeepsSound(w, id);
    case _ => StepOnlyFewer(w.queue, step, w.inFlight);
  }

  lemma {:induction false} ClaimsStaySound(steps: seq<Step>)
    ensures ClaimsSound(Run(steps).queue) && HistorySound(Run(steps))
  {
    hide Advance, ClaimsSound, HistorySound;
    if steps == [] {
      NoClaimsAtFirst();
    } else {
      ClaimsStaySound(steps[..|steps| - 1]);
      StepKeepsClaims(Run(steps[..|steps| - 1]), steps[|steps| - 1]);
    }
  }

  lemma NoClaimsAtFirst()
    ensures ClaimsSound(FIRST_WORLD.queue) && HistorySound(FIRST_WORLD)
  {
  }

  /** What a claim was taken on is no longer what is queued under its identifier. */
  ghost predicate Stale(w: World, claim: Claim) {
    !Queued(w.queue.banners, claim.id) || claim.token !in w.taken || claim.id !in w.births
    || w.taken[claim.token] != (claim.id, w.births[claim.id])
  }

  /**
   * Claims only name queued banners; completing or cancelling a claim whose banner was since replaced, evicted or
   * dismissed changes nothing, so it never removes a later banner with that identifier.
   */
  lemma StaleClaimIsPowerless(steps: seq<Step>, claim: Claim)
    ensures var w := Run(steps);
            && (forall id :: id in w.queue.claims ==> Queued(w.queue.banners, id))
            && (Stale(w, claim) ==>
                  && CompleteActivation(w.queue, claim).0 == w.queue
                  && CancelActivation(w.queue, claim) == w.queue
                  && (CompleteActivation(w.queue, claim).1.Err? <==> Queued(w.queue.banners, claim.id)))
  {
    hide Run, Queued, IndexOf, RemoveBanner;
    var w := Run(steps);
    ClaimsStaySound(steps);
    NotIndexed(w.queue.banners, claim.id);
  }

  // ---- The pending sound ----

  /** A pending sound belongs to the current generation and to a banner that is still queued. */
  ghost predicate SoundNamed(q: Queue) {
    q.pendingSound.Some? ==>
      q.pendingSound.value.generation == q.generation && Queued(q.banners, q.pendingSound.value.notificationId)
  }

  lemma RemovalKeepsSoundNamed(q: Queue, claims: map<int, nat>, id: int)
    requires ClaimsSound(q) && SoundNamed(q)
    ensures SoundNamed(RemoveBanner(q.(claims := claims), id))
  {
    hide Filter;
    FewerDistinct(q.banners, id);
  }

  lemma {:induction false} DismissAllKeepsSoundNamed(q: Queue, banners: seq<Banner>)
    requires ClaimsSound(q) && SoundNamed(q)
    ensures SoundNamed(DismissAll(q, banners))
  {
    hide ClaimsSound, RemoveBanner, SoundNamed;
    if banners != [] {
      DismissAllKeepsSoundNamed(q, banners[..|banners| - 1]);
      DismissAllKeepsClaims(q, banners[..|banners| - 1]);
      var before := DismissAll(q, banners[..|banners| - 1]);
      RemovalKeepsSoundNamed(before, before.claims - {banners[|banners| - 1].id}, banners[|banners| - 1].id);
    }
  }

  lemma PushSetsSound(q: Queue, b: Banner)
    ensures Push(q, b).0.pendingSound == Some(PendingSound(q.generation + 1, b.id, b.sound))
    ensures Push(q, b).0.generation == q.generation + 1
  {
    hide IndexOf, Passive, FirstPassive;
  }

  lemma StepKeepsSoundNamed(q: Queue, step: Step, inFlight: Option<nat>)
    requires ClaimsSound(q) && SoundNamed(q) && !Rejected(q, step)
    ensures SoundNamed(ApplyStep(q, step, inFlight))
  {
    hide RemoveBanner, DismissAll, Passive, IndexOf, Resized, Queued, IdsDistinct, Push;
    match step
    case DoPush(b) =>
      PushSetsSound(q, b);
      PushKeepsClaims(q, b);
    case DoDismiss(id) => RemovalKeepsSoundNamed(q, q.claims - {id}, id);
    case DoComplete(claim) => RemovalKeepsSoundNamed(q, q.claims - {claim.id}, claim.id);
    case DoClearPassive => DismissAllKeepsSoundNamed(q, Passive(q.banners));
    case DoTextSize(size) => ResizedKeepsIds(q.banners, size);
    case _ =>
  }

  /** In every run without a rejected push, a sound still to be played is for a banner still queued. */
  lemma {:induction false} PendingSoundIsForQueuedBanner(steps: seq<Step>)
    requires forall i :: 0 <= i < |steps| ==> !Rejected(Run(steps[..i]).queue, steps[i])
    ensures SoundNamed(Run(steps).queue)
  {
    hide SoundNamed, Rejected, ClaimsSound, HistorySound, ApplyStep;
    if steps == [] {
      NoSoundAtFirst();
    } else {
      var m := |steps| - 1;
      assert forall i :: 0 <= i < m ==> steps[..m][..i] == steps[..i];
      PendingSoundIsForQueuedBanner(steps[..m]);
      ClaimsStaySound(steps[..m]);
      StepKeepsSoundNamed(Run(steps[..m]).queue, steps[m], Run(steps[..m]).inFlight);
    }
  }

  lemma NoSoundAtFirst()
    ensures SoundNamed(FIRST_WORLD.queue)
  {
  }

  // ---- How many banners are shown ----

  function IsApproval(): Banner -> bool {
    (b: Banner) => b.approval
  }

  lemma CountAppended(banners: seq<Banner>, p: Banner -> bool, b: Banner)
    ensures |Filter(banners + [b], p)| == |Filter(banners, p)| + if p(b) then 1 else 0
  {
    assert (banners + [b])[..|banners|] == banners;
  }

  lemma {:induction false} CountWithout(banners: seq<Banner>, p: Banner -> bool, i: nat)
    requires i < |banners|
    ensures |Filter(banners[..i] + banners[i + 1..], p)| == |Filter(banners, p)| - if p(banners[i]) then 1 else 0
  {
    hide Filter;
    var m := |banners| - 1;
    assert banners == banners[..m] + [banners[m]];
    CountAppended(banners[..m], p, banners[m]);
    if i == m {
      assert banners[..i] + banners[i + 1..] == banners[..m];
    } else {
      var shorter := banners[..m][..i] + banners[..m][i + 1..];
      CountWithout(banners[..m], p, i);
      assert banners[..i] + banners[i + 1..] == shorter + [banners[m]];
      CountAppended(shorter, p, banners[m]);
    }
  }

  lemma {:induction false} CountReplaced(banners: seq<Banner>, p: Banner -> bool, i: nat, b: Banner)
    requires i < |banners|
    ensures |Filter(banners[i := b], p)|
         == |Filter(banners, p)| - (if p(banners[i]) then 1 else 0) + (if p(b) then 1 else 0)
  {
    hide Filter;
    var m := |banners| - 1;
    assert banners == banners[..m] + [banners[m]];
    CountAppended(banners[..m], p, banners[m]);
    if i == m {
      assert banners[i := b] == banners[..m] + [b];
      CountAppended(banners[..m], p, b);
    } else {
      CountReplaced(banners[..m], p, i, b);
      assert banners[i := b] == banners[..m][i := b] + [banners[m]];
      CountAppended(banners[..m][i := b], p, banners[m]);
    }
  }

  lemma {:induction false} FirstPassiveIsFirst(banners: seq<Banner>)
    ensures var r := FirstPassive(banners);
            && (r.Some? ==> forall i :: 0 <= i < r.value ==> banners[i].approval)
            && (r.None? ==> forall i :: 0 <= i < |banners| ==> banners[i].approval)
  {
    if banners != [] { FirstPassiveIsFirst(banners[1..]); }
  }

  lemma SomePassive(banners: seq<Banner>)
    ensures FirstPassive(banners).None? <==> Passive(banners) == []
    ensures ApprovalVisible(banners) <==> Filter(banners, IsApproval()) != []
  {
    hide Filter, FirstPassive;
    FirstPassiveIsFirst(banners);
    if Passive(banners) != [] { assert Passive(banners)[0] in Passive(banners); }
    if Filter(banners, IsApproval()) != [] { assert Filter(banners, IsApproval())[0] in Filter(banners, IsApproval()); }
    if FirstPassive(banners).Some? { assert banners[FirstPassive(banners).value] in Passive(banners); }
  }

  /** Evicting for a banner and appending it: what is counted afterwards. */
  lemma EvictAndAppendCounts(q: Queue, b: Banner)
    ensures var after := EvictFor(q, b).banners + [b];
            && |Passive(after)| == |Passive(q.banners)| + (if b.approval then 0 else 1)
                                   - (if EvictFor(q, b) == q then 0 else 1)
            && |Filter(after, IsApproval())| == |Filter(q.banners, IsApproval())| + if b.approval then 1 else 0
    ensures EvictFor(q, b) != q <==> !b.approval && |Passive(q.banners)| >= MAX_VISIBLE_PASSIVE
  {
    hide Filter, FirstPassive;
    SomePassive(q.banners);
    var room := EvictFor(q, b);
    if !b.approval && |Passive(q.banners)| >= MAX_VISIBLE_PASSIVE {
      CountWithout(q.banners, IsPassive(), FirstPassive(q.banners).value);
      CountWithout(q.banners, IsApproval(), FirstPassive(q.banners).value);
    }
    CountAppended(room.banners, IsPassive(), b);
    CountAppended(room.banners, IsApproval(), b);
  }

  /** The push replaces a queued banner that is an approval, or is not, by one of the other kind. */
  predicate Changes(q: Queue, b: Banner, approval: bool) {
    IndexOf(q.banners, b.id).Some? && q.banners[IndexOf(q.banners, b.id).value].approval == approval && b.approval != approval
  }

  /**
   * A push keeps at most three passive banners and one approval, except in two cases, and exactly there: it turns an
   * approval into a fourth passive banner, or a passive banner into a second approval.
   */
  lemma PushKeepsQueueSmallIff(q: Queue, b: Banner)
    requires |Passive(q.banners)| <= MAX_VISIBLE_PASSIVE && |Filter(q.banners, IsApproval())| <= 1
    ensures |Passive(Push(q, b).0.banners)| <= MAX_VISIBLE_PASSIVE
       <==> !(Changes(q, b, true) && |Passive(q.banners)| == MAX_VISIBLE_PASSIVE)
    ensures |Filter(Push(q, b).0.banners, IsApproval())| <= 1
       <==> !(Changes(q, b, false) && ApprovalVisible(q.banners))
  {
    hide Filter, FirstPassive, IndexOf, ApprovalVisible, EvictFor;
    SomePassive(q.banners);
    match IndexOf(q.banners, b.id)
    case Some(i) =>
      CountReplaced(q.banners, IsPassive(), i, b);
      CountReplaced(q.banners, IsApproval(), i, b);
    case None =>
      EvictAndAppendCounts(q.(generation := q.generation + 1,
                              pendingSound := Some(PendingSound(q.generation + 1, b.id, b.sound)), retry := NO_RETRY), b);
  }

  /** A fourth passive banner pushes out the oldest passive one, and everything else keeps its place. */
  lemma OldestPassiveIsEvicted(q: Queue, b: Banner)
    requires !Queued(q.banners, b.id) && !b.approval && |Passive(q.banners)| >= MAX_VISIBLE_PASSIVE
    ensures FirstPassive(q.banners).Some?
    ensures var i := FirstPassive(q.banners).value;
            && (forall j :: 0 <= j < i ==> q.banners[j].approval)
            && Push(q, b).0.banners == q.banners[..i] + q.banners[i + 1..] + [b]
  {
    hide Filter, FirstPassive, IndexOf;
    SomePassive(q.banners);
    FirstPassiveIsFirst(q.banners);
    NotIndexed(q.banners, b.id);
  }

  // ---- Both ways past the bounds are reachable ----

  lemma PushAppends(w: World, b: Banner)
    requires forall x :: x in w.queue.banners ==> x.id != b.id
    requires if b.approval then Filter(w.queue.banners, IsApproval()) == [] else |Passive(w.queue.banners)| < MAX_VISIBLE_PASSIVE
    ensures var after := Advance(w, DoPush(b)).queue.banners;
            && after == w.queue.banners + [b]
            && |Passive(after)| == |Passive(w.queue.banners)| + (if b.approval then 0 else 1)
            && |Filter(after, IsApproval())| == |Filter(w.queue.banners, IsApproval())| + (if b.approval then 1 else 0)
  {
    hide Filter, FirstPassive, IndexOf;
    NotIndexed(w.queue.banners, b.id);
    SomePassive(w.queue.banners);
    CountAppended(w.queue.banners, IsPassive(), b);
    CountAppended(w.queue.banners, IsApproval(), b);
  }

  lemma NothingQueuedAtFirst()
    ensures FIRST_WORLD.queue.banners == [] && Passive([]) == [] && Filter([], IsApproval()) == []
  {
  }

  /** A fourth passive banner: an approval among three passive ones is replaced by a passive one. */
  lemma FourPassiveBanners(a: Banner, b: Banner, c: Banner, d: Banner, e: Banner)
    requires a.approval && !b.approval && !c.approval && !d.approval && !e.approval && e.id == a.id
    requires a.id != b.id && a.id != c.id && a.id != d.id && b.id != c.id && b.id != d.id && c.id != d.id
    ensures var before := Run([DoPush(a), DoPush(b), DoPush(c), DoPush(d)]).queue;
            && |Passive(before.banners)| == MAX_VISIBLE_PASSIVE && |Filter(before.banners, IsApproval())| == 1
            && Changes(before, e, true) && |Passive(Push(before, e).0.banners)| > MAX_VISIBLE_PASSIVE
  {
    hide Run, Advance, Push, Filter, IndexOf;
    RunOfFour([DoPush(a), DoPush(b), DoPush(c), DoPush(d)]);
    NothingQueuedAtFirst();
    var w1 := Advance(FIRST_WORLD, DoPush(a));
    PushAppends(FIRST_WORLD, a);
    var w2 := Advance(w1, DoPush(b));
    PushAppends(w1, b);
    var w3 := Advance(w2, DoPush(c));
    PushAppends(w2, c);
    var w4 := Advance(w3, DoPush(d));
    PushAppends(w3, d);
    assert w4.queue.banners[0] == a;
    PushKeepsQueueSmallIff(w4.queue, e);
  }

  /** A second approval: a passive banner is replaced by an approval while another one is visible. */
  lemma TwoApprovals(a: Banner, b: Banner, c: Banner)
    requires !a.approval && b.approval && c.approval && c.id == a.id && a.id != b.id
    ensures var before := Run([DoPush(a), DoPush(b)]).queue;
            && |Passive(before.banners)| == 1 && |Filter(before.banners, IsApproval())| == 1
            && Changes(before, c, false) && |Filter(Push(before, c).0.banners, IsApproval())| > 1
  {
    hide Run, Advance, Push, Filter, IndexOf;
    var steps := [DoPush(a), DoPush(b)];
    RunStep(steps, 0);
    RunStep(steps, 1);
    assert steps[..2] == steps && steps[..0] == [];
    NothingQueuedAtFirst();
    var w1 := Advance(FIRST_WORLD, DoPush(a));
    PushAppends(FIRST_WORLD, a);
    var w2 := Advance(w1, DoPush(b));
    PushAppends(w1, b);
    assert w2.queue.banners[0] == a && w2.queue.banners[1] == b;
    SomePassive(w2.queue.banners);
    PushKeepsQueueSmallIff(w2.queue, c);
  }

  lemma RunOfFour(steps: seq<Step>)
    requires |steps| == 4
    ensures Run(steps) == Advance(Advance(Advance(Advance(FIRST_WORLD, steps[0]), steps[1]), steps[2]), steps[3])
  {
    hide Advance, Run;
    RunStep(steps, 0);
    RunStep(steps, 1);
    RunStep(steps, 2);
    RunStep(steps, 3);
    assert steps[..4] == steps && steps[..0] == [];
  }

  // ---- What each call does ----

  ghost predicate SameSettings(a: Queue, b: Queue) {
    a.centered == b.centered && a.notificationDisplay == b.notificationDisplay && a.approvalDisplay == b.approvalDisplay
  }

  /** A new generation is due at once, with a clean record; a pending sound moves along with it. */
  ghost predicate Renewed(a: Queue, b: Queue) {
    && b.generation == a.generation + 1 && b.dirty && b.retry.attempts == 0 && b.retry.nextAttemptAt.None?
    && b.pendingSound == (if a.pendingSound.None? then None
                          else Some(PendingSound(a.generation + 1, a.pendingSound.value.notificationId, a.pendingSound.value.sound)))
    && b.nextClaim == a.nextClaim && b.scheduled == a.scheduled
  }

  ghost predicate Shows(banners: seq<Banner>, id: int) {
    exists b :: b in banners && b.id == id
  }

  ghost predicate ShowsApproval(banners: seq<Banner>) {
    exists b :: b in banners && b.approval
  }

  /** The first banner of this identifier is replaced where it stands, and claims on it lapse. */
  ghost predicate ReplacedIn(q: Queue, b: Banner, after: Queue) {
    exists i :: 0 <= i < |q.banners| && q.banners[i].id == b.id && (forall j :: 0 <= j < i ==> q.banners[j].id != b.id)
                && after.banners == q.banners[i := b] && after.claims == q.claims - {b.id}
  }

  /** The oldest passive banner goes, with its claim, and the new one comes last. */
  ghost predicate EvictedFor(q: Queue, b: Banner, after: Queue) {
    exists i :: 0 <= i < |q.banners| && !q.banners[i].approval && (forall j :: 0 <= j < i ==> q.banners[j].approval)
                && after.banners == q.banners[..i] + q.banners[i + 1..] + [b] && after.claims == q.claims - {q.banners[i].id}
  }

  /** No banner before this one has its identifier. */
  ghost predicate FirstCalled(banners: seq<Banner>, b: Banner) {
    exists i :: 0 <= i < |banners| && banners[i] == b && forall j :: 0 <= j < i ==> banners[j].id != b.id
  }

  lemma IndexIsFirst(banners: seq<Banner>, id: int)
    ensures IndexOf(banners, id).Some? <==> Shows(banners, id)
  {
    if b :| b in banners && b.id == id {
      var i :| 0 <= i < |banners| && banners[i] == b;
    }
  }

  lemma {:induction false} FirstPassiveBehindApprovals(banners: seq<Banner>)
    ensures var r := FirstPassive(banners);
            r.Some? ==> forall j :: 0 <= j < r.value ==> banners[j].approval
    ensures |Passive(banners)| > 0 ==> FirstPassive(banners).Some?
  {
    FirstPassiveIsFirst(banners);
    if |Passive(banners)| > 0 { SomePassive(banners); }
  }

  /**
   * A push replaces the banner of its identifier, or is refused as a second approval, or comes last, behind at most two
   * other passive ones if it is passive itself. Its sound is pending under a new generation in every case.
   */
  lemma PushDoes(q: Queue, b: Banner)
    ensures var (after, result) := Push(q, b);
            && after.generation == q.generation + 1 && after.retry == Retry(0, None)
            && after.pendingSound == Some(PendingSound(q.generation + 1, b.id, b.sound))
            && after.nextClaim == q.nextClaim && after.scheduled == q.scheduled && SameSettings(q, after)
            && (result.Err? <==> b.approval && ShowsApproval(q.banners) && !Shows(q.banners, b.id))
            && (result.Err? ==>
                  result.error == ApprovalAlreadyVisible && after.banners == q.banners && after.claims == q.claims && after.dirty == q.dirty)
            && (result.Ok? ==>
                  && after.dirty
                  && if Shows(q.banners, b.id) then ReplacedIn(q, b, after)
                     else if !b.approval && |Passive(q.banners)| >= 3 then EvictedFor(q, b, after)
                     else after.banners == q.banners + [b] && after.claims == q.claims)
  {
    hide Filter, FirstPassive, IndexOf, Passive, Shows;
    IndexIsFirst(q.banners, b.id);
    FirstPassiveBehindApprovals(q.banners);
    var (after, result) := Push(q, b);
    if IndexOf(q.banners, b.id).Some? {
      var i := IndexOf(q.banners, b.id).value;
      assert after.banners == q.banners[i := b];
    } else if result.Ok? && !b.approval && |Passive(q.banners)| >= 3 {
      var i := FirstPassive(q.banners).value;
      assert after.banners == q.banners[..i] + q.banners[i + 1..] + [b];
    }
  }

  /** Removing a banner that is there renews the generation without it and silences a sound of its own; else nothing happens. */
  lemma RemovalDoes(q: Queue, id: int)
    ensures var after := RemoveBanner(q, id);
            if !Shows(q.banners, id) then after == q
            else
              && Renewed(if q.pendingSound.Some? && q.pendingSound.value.notificationId == id then q.(pendingSound := None) else q, after)
              && (forall b :: b in after.banners <==> b in q.banners && b.id != id)
              && after.claims == q.claims && SameSettings(q, after)
    ensures Dismiss(q, id) == RemoveBanner(q.(claims := Dismiss(q, id).claims), id)
    ensures forall other :: other in Dismiss(q, id).claims <==> other in q.claims && other != id
    ensures forall other :: other in Dismiss(q, id).claims ==> Dismiss(q, id).claims[other] == q.claims[other]
  {
    hide Filter;
    if Shows(q.banners, id) {
      if |Filter(q.banners, NotCalled(id))| == |q.banners| {
        FilterUnchanged(q.banners, NotCalled(id));
        assert false;
      }
    } else {
      FilterAll(q.banners, NotCalled(id));
    }
  }

  /** A claim in force can be cancelled, or completed with the removal of its banner; any other claim can do neither. */
  lemma ClaimInForceDoes(q: Queue, claim: Claim)
    ensures var inForce := claim.id in q.claims && q.claims[claim.id] == claim.token;
            var (after, result) := CompleteActivation(q, claim);
            if inForce then
              && CancelActivation(q, claim) == q.(claims := q.claims - {claim.id})
              && after == Dismiss(q, claim.id) && result == Ok(after.banners == [])
            else
              && CancelActivation(q, claim) == q && after == q
              && result == if Shows(q.banners, claim.id) then Err(ActivationNotCurrent) else Ok(q.banners == [])
  {
    hide IndexOf, RemoveBanner, Shows;
    IndexIsFirst(q.banners, claim.id);
  }

  /** The waits between presentation attempts, in milliseconds. */
  const PRESENTATION_WAITS := [250, 1_000, 4_000, 15_000]

  /** An outcome frees the slot; only that of the current generation counts: success clears the record, failure waits longer each time, the fifth gives up. */
  lemma FinishDoes(q: Queue, generation: nat, now: int)
    ensures var after := FinishPresentation(q, generation, true, now);
            after == if generation == q.generation then q.(scheduled := false, retry := Retry(0, None)) else q.(scheduled := false)
    ensures var after := FinishPresentation(q, generation, false, now);
            if generation != q.generation then after == q.(scheduled := false)
            else if q.retry.attempts < 4 then
              after == q.(scheduled := false, dirty := true,
                          retry := Retry(q.retry.attempts + 1, Some(now + PRESENTATION_WAITS[q.retry.attempts])))
            else
              && after == q.(scheduled := false, retry := Retry(q.retry.attempts + 1, None), pendingSound := after.pendingSound)
              && (after.pendingSound.None? || after.pendingSound == q.pendingSound)
              && (after.pendingSound.None? <==> q.pendingSound.None? || q.pendingSound.value.generation == generation)
  {
  }

  /** A sound is handed out once, to its own generation; asking again or for another generation yields nothing. */
  lemma SoundIsTakenOnce(q: Queue, generation: nat)
    ensures var (after, sound) := TakePendingSound(q, generation);
            if q.pendingSound.Some? && q.pendingSound.value.generation == generation
            then sound == q.pendingSound.value.sound && after == q.(pendingSound := None)
                 && TakePendingSound(after, generation) == (after, None)
            else sound.None? && after == q
  {
  }

  /** Clearing leaves the approvals, in order, and nothing else. */
  lemma ClearLeavesApprovals(q: Queue)
    requires IdsDistinct(q.banners)
    ensures forall b :: b in ClearPassive(q).banners <==> b in q.banners && b.approval
  {
    hide Filter, RemoveBanner, Passive;
    DismissedAreGone(q, Passive(q.banners));
    PassiveAreThose(q.banners);
    forall b | b in q.banners ensures (exists p :: p in Passive(q.banners) && p.id == b.id) <==> !b.approval {
      if p :| p in Passive(q.banners) && p.id == b.id { SameIdSameBanner(q.banners, p, b); }
    }
  }

  lemma PassiveAreThose(banners: seq<Banner>)
    ensures forall b :: b in Passive(banners) <==> b in banners && !b.approval
  {
    hide Filter;
  }

  lemma SameIdSameBanner(banners: seq<Banner>, a: Banner, b: Banner)
    requires IdsDistinct(banners) && a in banners && b in banners && a.id == b.id
    ensures a == b
  {
    var i :| 0 <= i < |banners| && banners[i] == a;
    var j :| 0 <= j < |banners| && banners[j] == b;
    if i < j { } else if j < i { }
  }

  lemma {:induction false} DismissedAreGone(q: Queue, gone: seq<Banner>)
    ensures forall b :: b in DismissAll(q, gone).banners <==> b in q.banners && forall p :: p in gone ==> p.id != b.id
  {
    hide RemoveBanner, Dismiss;
    if gone != [] {
      var m := |gone| - 1;
      DismissedAreGone(q, gone[..m]);
      DismissTakes(DismissAll(q, gone[..m]), gone[m].id);
      assert forall p :: p in gone <==> p in gone[..m] || p == gone[m];
    }
  }

  lemma DismissTakes(q: Queue, id: int)
    ensures forall b :: b in Dismiss(q, id).banners <==> b in q.banners && b.id != id
  {
    hide Filter;
    RemovalDoes(q.(claims := q.claims - {id}), id);
  }
}

/** The same queue as the object the desktop shares between its threads. */
module BannerWindow {
  import opened Base
  import opened Rows
  import opened Banners

  /** The in-place queue; each method runs to its end before the next one starts. */
  class BannerState {
    var banners: seq<Banner>
    var claims: map<int, nat>
    var pendingSound: Option<PendingSound>
    var retry: Retry
    var nextClaim: nat
    var generation: nat
    var centered: bool
    var notificationDisplay: Display
    var approvalDisplay: Display
    var dirty: bool
    var scheduled: bool

    function State(): Queue
      reads this
    {
      Queue(banners, claims, pendingSound, retry, nextClaim, generation, centered, notificationDisplay, approvalDisplay, dirty, scheduled)
    }

    constructor ()
      ensures State() == EMPTY_QUEUE
    {
      banners, claims, pendingSound, retry := [], map[], None, NO_RETRY;
      nextClaim, generation, centered := 0, 0, true;
      notificationDisplay, approvalDisplay, dirty, scheduled := Primary, Primary, false, false;
    }

    method Push(b: Banner) returns (result: Result<(), BannerError>)
      modifies this
      ensures (State(), result) == Banners.Push(old(State()), b)
    {
      generation := generation + 1;
      pendingSound := Some(PendingSound(generation, b.id, b.sound));
      retry := NO_RETRY;
      var existing := IndexOf(banners, b.id);
      if existing.Some? {
        claims := claims - {b.id};
        banners := banners[existing.value := b];
        dirty := true;
        return Ok(());
      }
      if b.approval {
        if ApprovalVisible(banners) { return Err(ApprovalAlreadyVisible); }
      } else if |Passive(banners)| >= MAX_VISIBLE_PASSIVE {
        var eviction := FirstPassive(banners);
        if eviction.Some? {
          claims := claims - {banners[eviction.value].id};
          banners := banners[..eviction.value] + banners[eviction.value + 1..];
        }
      }
      banners := banners + [b];
      dirty := true;
      return Ok(());
    }

    method Dismiss(id: int) returns (empty: bool)
      modifies this
      ensures State() == Banners.Dismiss(old(State()), id) && empty == (banners == [])
    {
      claims := claims - {id};
      empty := RemoveBanner(id);
    }

    method RemoveBanner(id: int) returns (empty: bool)
      modifies this
      ensures State() == Banners.RemoveBanner(old(State()), id) && empty == (banners == [])
    {
      var previous := |banners|;
      banners := Filter(banners, NotCalled(id));
      if |banners| != previous {
        generation := generation + 1;
        if pendingSound.Some? && pendingSound.value.notificationId == id {
          pendingSound := None;
        } else if pendingSound.Some? {
          pendingSound := Some(pendingSound.value.(generation := generation));
        }
        retry := NO_RETRY;
        dirty := true;
      } else {
        FilterUnchanged(old(banners), NotCalled(id));
      }
      return banners == [];
    }

    method ClaimActivation(id: int) returns (result: Result<(Claim, string), BannerError>)
      modifies this`claims, this`nextClaim
      ensures (State(), result) == Banners.ClaimActivation(old(State()), id)
      ensures result.Ok? <==> (exists b :: b in banners && b.id == id && FirstCalled(banners, b) && b.activation.Some?) && id !in old(claims)
      ensures result.Ok? ==> result.value.0.id == id && result.value.0.token == nextClaim > old(nextClaim)
                             && claims == old(claims)[id := nextClaim]
      ensures result.Err? ==> claims == old(claims) && nextClaim == old(nextClaim)
    {
      var found := IndexOf(banners, id);
      if found.None? || banners[found.value].activation.None? { return Err(ActivationUnavailable); }
      if id in claims { return Err(ActivationInProgress); }
      nextClaim := nextClaim + 1;
      claims := claims[id := nextClaim];
      return Ok((Claim(id, nextClaim), banners[found.value].activation.value));
    }

    method CancelActivation(claim: Claim)
      modifies this`claims
      ensures State() == Banners.CancelActivation(old(State()), claim)
    {
      if claim.id in claims && claims[claim.id] == claim.token { claims := claims - {claim.id}; }
    }

    method CompleteActivation(claim: Claim) returns (result: Result<bool, BannerError>)
      modifies this
      ensures (State(), result) == Banners.CompleteActivation(old(State()), claim)
    {
      if !(claim.id in claims && claims[claim.id] == claim.token) {
        if IndexOf(banners, claim.id).Some? { return Err(ActivationNotCurrent); }
        return Ok(banners == []);
      }
      claims := claims - {claim.id};
      var empty := RemoveBanner(claim.id);
      return Ok(empty);
    }

    method Refresh()
      modifies this`generation, this`pendingSound, this`retry, this`dirty
      ensures State() == NextGeneration(old(State()))
    {
      generation := generation + 1;
      if pendingSound.Some? { pendingSound := Some(pendingSound.value.(generation := generation)); }
      retry := NO_RETRY;
      dirty := true;
    }

    method UpdateTextSize(textSize: int) returns (changed: bool)
      modifies this
      ensures State() == Banners.UpdateTextSize(old(State()), textSize)
      ensures changed <==> exists b :: b in old(banners) && b.textSize != textSize
      ensures if changed then Renewed(old(State()), State()) && claims == old(claims) && SameSettings(old(State()), State())
              else State() == old(State())
      ensures |banners| == |old(banners)|
           && forall i :: 0 <= i < |banners| ==> banners[i] == old(banners)[i].(textSize := textSize)
    {
      if forall b :: b in banners ==> b.textSize == textSize { return false; }
      banners := Resized(banners, textSize);
      Refresh();
      return true;
    }

    method UpdateApprovalCentering(centered: bool) returns (changed: bool)
      modifies this
      ensures State() == Banners.UpdateApprovalCentering(old(State()), centered)
      ensures changed <==> old(this.centered) != centered && ShowsApproval(banners)
      ensures this.centered == centered && banners == old(banners) && claims == old(claims)
      ensures notificationDisplay == old(notificationDisplay) && approvalDisplay == old(approvalDisplay)
      ensures if changed then Renewed(old(State()), State()) else State() == old(State()).(centered := centered)
    {
      var previous := this.centered;
      this.centered := centered;
      if previous == centered { return false; }
      if !ApprovalVisible(banners) { return false; }
      Refresh();
      return true;
    }

    method UpdateNotificationDisplay(display: Display) returns (changed: bool)
      modifies this
      ensures State() == Banners.UpdateNotificationDisplay(old(State()), display)
      ensures changed <==> old(notificationDisplay) != display && banners != [] && !ShowsApproval(banners)
      ensures notificationDisplay == display && banners == old(banners) && claims == old(claims)
      ensures centered == old(centered) && approvalDisplay == old(approvalDisplay)
      ensures if changed then Renewed(old(State()), State()) else State() == old(State()).(notificationDisplay := display)
    {
      var previous := notificationDisplay;
      notificationDisplay := display;
      if previous == display { return false; }
      if banners == [] || ApprovalVisible(banners) { return false; }
      Refresh();
      return true;
    }

    method UpdateApprovalDisplay(display: Display) returns (changed: bool)
      modifies this
      ensures State() == Banners.UpdateApprovalDisplay(old(State()), display)
      ensures changed <==> old(approvalDisplay) != display && ShowsApproval(banners)
      ensures approvalDisplay == display && banners == old(banners) && claims == old(claims)
      ensures centered == old(centered) && notificationDisplay == old(notificationDisplay)
      ensures if changed then Renewed(old(State()), State()) else State() == old(State()).(approvalDisplay := display)
    {
      var previous := approvalDisplay;
      approvalDisplay := display;
      if previous == display { return false; }
      if !ApprovalVisible(banners) { return false; }
      Refresh();
      return true;
    }

    method ClearPassive()
      modifies this
      ensures State() == Banners.ClearPassive(old(State()))
    {
      var passive := Passive(banners);
      for i := 0 to |passive|
        invariant State() == DismissAll(old(State()), passive[..i])
      {
        assert passive[..i + 1][..i] == passive[..i];
        var _ := Dismiss(passive[i].id);
      }
      assert passive[..|passive|] == passive;
    }

    method BeginPresentation(now: int) returns (begun: Option<nat>)
      modifies this`scheduled, this`dirty
      ensures (State(), begun) == Banners.BeginPresentation(old(State()), now)
      ensures begun.Some? <==> old(dirty) && !old(scheduled) && (retry.nextAttemptAt.None? || retry.nextAttemptAt.value <= now)
      ensures begun.Some? ==> begun.value == generation && scheduled && !dirty
      ensures begun.None? ==> State() == old(State())
    {
      var already := scheduled;
      scheduled := true;
      if already { return None; }
      if !(retry.nextAttemptAt.None? || now >= retry.nextAttemptAt.value) {
        scheduled := false;
        return None;
      }
      var wasDirty := dirty;
      dirty := false;
      if wasDirty { return Some(generation); }
      scheduled := false;
      return None;
    }

    method FinishPresentation(presented: nat, succeeded: bool, now: int)
      modifies this`scheduled, this`dirty, this`retry, this`pendingSound
      ensures State() == Banners.FinishPresentation(old(State()), presented, succeeded, now)
    {
      if generation != presented {
        scheduled := false;
        return;
      }
      var discardSound := false;
      if succeeded {
        retry := NO_RETRY;
      } else {
        retry := retry.(attempts := retry.attempts + 1);
        if retry.attempts < MAX_PRESENTATION_ATTEMPTS {
          dirty := true;
          retry := retry.(nextAttemptAt := Some(now + RetryDelay(retry.attempts)));
        } else {
          retry := retry.(nextAttemptAt := None);
          discardSound := true;
        }
      }
      if discardSound { var _ := TakePendingSound(presented); }
      scheduled := false;
    }

    method TakePendingSound(presented: nat) returns (sound: Option<string>)
      modifies this`pendingSound
      ensures (State(), sound) == Banners.TakePendingSound(old(State()), presented)
    {
      if pendingSound.Some? && pendingSound.value.generation == presented {
        sound := pendingSound.value.sound;
        pendingSound := None;
        return;
      }
      return None;
    }
  }
}
