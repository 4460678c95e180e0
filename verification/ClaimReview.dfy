/** A claim review's `establish!`: it drives the establishment of all its end products and is marked
    processed only once none of them failed. */
module ClaimReviews {
  import opened Prelude
  import opened EndProductEstablishments
  import opened EstablishmentRuns
  import opened EachUntilFailure

  datatype Review = Review(
    processedInCaseflow: bool, attemptedAt: Option<nat>, processedAt: Option<nat>, error: bool, epes: seq<Epe>)

  /** What happens during one attempt: one script per end product, and whether legacy issues went well. */
  datatype ReviewAttempt = ReviewAttempt(now: nat, scripts: nat -> Attempt, legacyIssues: bool)

  datatype ReviewOutcome = Completed | NoEndProductsRequired | Stopped

  function EstablishReview(review: Review, a: ReviewAttempt, claims: seq<Claim>, contentions: seq<Contention>,
                           others: set<nat>): (Review, seq<Claim>, seq<Contention>, ReviewOutcome)
  {
    var attempted := review.(attemptedAt := Some(a.now));
    if review.processedInCaseflow && review.epes != [] then (attempted, claims, contentions, NoEndProductsRequired)
    else
      var each := UntilFailure(Establish, review.epes, |review.epes|, a.scripts, claims, contentions, others);
      var established := attempted.(epes := each.epes);
      if !each.ok || !a.legacyIssues then (established, each.claims, each.contentions, Stopped)
      else
        (established.(error := false,
                      processedAt := if review.processedAt.Some? then review.processedAt else Some(a.now)),
         each.claims, each.contentions, Completed)
  }

  /** An attempt always leaves its mark; a review of end products that is processed in Caseflow is refused and keeps
      everything else; a stopped attempt leaves the error and the processed mark, a completed one clears the error and
      marks the review once. */
  lemma {:induction false} AttemptMarks(review: Review, a: ReviewAttempt, claims: seq<Claim>, contentions: seq<Contention>,
                                        others: set<nat>)
    ensures var (after, claims', contentions', outcome) := EstablishReview(review, a, claims, contentions, others);
            && after.attemptedAt == Some(a.now) && after.processedInCaseflow == review.processedInCaseflow
            && (outcome == NoEndProductsRequired <==> review.processedInCaseflow && review.epes != [])
            && (outcome == NoEndProductsRequired ==>
                  after.epes == review.epes && claims' == claims && contentions' == contentions)
            && (outcome != Completed ==> after.error == review.error && after.processedAt == review.processedAt)
            && (outcome == Completed ==> a.legacyIssues && !after.error)
            && (outcome == Completed && review.processedAt.None? ==> after.processedAt == Some(a.now))
            && (review.processedAt.Some? ==> after.processedAt == review.processedAt)
  {
  }

  /** A record that needs no more work: committed, or closed remotely. */
  predicate Settled(e: Epe) { e.committedAt.Some? || !e.statusActive }

  /** What a loop over the end products has achieved after handling the first `n`. */
  predicate Progress(epes: seq<Epe>, n: nat, now: seq<Epe>, ok: bool) {
    && |now| == |epes| && n <= |epes|
    && (forall i :: 0 <= i < |epes| ==>
          CommitIsMeaningful(now[i]) && Kept(epes[i], now[i]) && now[i].statusActive == epes[i].statusActive)
    && (ok ==> forall i :: 0 <= i < n ==> Settled(now[i]))
  }

  lemma {:induction false} OneMore(epes: seq<Epe>, n: nat, now: seq<Epe>, e: Epe, ok: bool)
    requires n < |epes| && Progress(epes, n, now, true)
    requires CommitIsMeaningful(e) && Kept(now[n], e) && e.statusActive == now[n].statusActive
    requires ok ==> Settled(e)
    ensures Progress(epes, n + 1, now[n := e], ok)
  {
    KeptTransitive(epes[n], now[n], e);
  }

  lemma {:induction false} EachKeeps(epes: seq<Epe>, n: nat, scripts: nat -> Attempt, claims: seq<Claim>,
                                     contentions: seq<Contention>, others: set<nat>)
    requires n <= |epes|
    requires forall i :: 0 <= i < |epes| ==> CommitIsMeaningful(epes[i])
    ensures var r := UntilFailure(Establish, epes, n, scripts, claims, contentions, others);
            Progress(epes, n, r.epes, r.ok)
  {
    var keeps := (m: nat, p: Each) => Progress(epes, m, p.epes, p.ok);
    forall m: nat, p: Each | m < |epes| == |p.epes| && keeps(m, p)
      ensures keeps(m + 1, Round(Establish, p, m, scripts(m), others))
    {
      RoundProgresses(epes, m, p, scripts(m), others);
    }
    LoopKeeps(Establish, keeps, epes, n, scripts, claims, contentions, others);
  }

  lemma {:induction false} RoundProgresses(epes: seq<Epe>, n: nat, before: Each, a: Attempt, others: set<nat>)
    requires n < |epes| && Progress(epes, n, before.epes, before.ok)
    ensures var after := Round(Establish, before, n, a, others); Progress(epes, n + 1, after.epes, after.ok)
  {
    if before.ok {
      NextProgresses(epes, n, before, a, others);
    }
  }

  lemma {:induction false} NextProgresses(epes: seq<Epe>, n: nat, before: Each, a: Attempt, others: set<nat>)
    requires n < |epes| && Progress(epes, n, before.epes, true)
    ensures Progress(epes, n + 1, Next(Establish, before, n, a, others).epes, Next(Establish, before, n, a, others).ok)
  {
    var e, claimed := before.epes[n], Held(before.epes) + others;
    var r := Establish(e, a, before.claims, before.contentions, claimed);
    EstablishKeeps(e, a, before.claims, before.contentions, claimed);
    EstablishKeepsStatus(e, a, before.claims, before.contentions, claimed);
    OneMore(epes, n, before.epes, r.epe, r.outcome.Done?);
  }

  lemma {:induction false} FinishKeepsStatus(epe: Epe, a: Attempt)
    ensures Finish(epe, a).0.statusActive == epe.statusActive
  {
  }

  lemma {:induction false} CreateContentionsKeepsStatus(epe: Epe, a: Attempt, contentions: seq<Contention>)
    requires epe.claim.Some?
    ensures CreateContentions(epe, a, contentions).0.statusActive == epe.statusActive
  {
  }

  /** No attempt opens or closes an end product. */
  lemma {:induction false} EstablishKeepsStatus(epe: Epe, a: Attempt, claims: seq<Claim>, contentions: seq<Contention>,
                                                claimed: set<nat>)
    ensures Establish(epe, a, claims, contentions, claimed).epe.statusActive == epe.statusActive
  {
    var (performed, _, outcome) := Perform(epe, a, claims, claimed);
    if outcome == Done {
      CreateContentionsKeepsStatus(performed, a, contentions);
      FinishKeepsStatus(CreateContentions(performed, a, contentions).0, a);
    }
  }

  // ---- Runs of attempts --------------------------------------------------------------------------

  datatype ReviewSystem = ReviewSystem(review: Review, claims: seq<Claim>, contentions: seq<Contention>)

  datatype ReviewEvent = Attempted(a: ReviewAttempt, others: set<nat>) | StatusSynced(i: nat)

  function ReviewStep(s: ReviewSystem, ev: ReviewEvent): ReviewSystem {
    match ev
    case Attempted(a, others) =>
      var (review, claims, contentions, _) := EstablishReview(s.review, a, s.claims, s.contentions, others);
      ReviewSystem(review, claims, contentions)
    case StatusSynced(i) =>
      if i < |s.review.epes| then
        s.(review := s.review.(epes := s.review.epes[i := s.review.epes[i].(statusActive := false)]))
      else s
  }

  /** Being processed is a sign that every end product is settled, and committed ones are complete. */
  predicate ProcessedIsMeaningful(review: Review) {
    && (forall i :: 0 <= i < |review.epes| ==> CommitIsMeaningful(review.epes[i]))
    && (review.processedAt.Some? ==> forall i :: 0 <= i < |review.epes| ==> Settled(review.epes[i]))
  }

  lemma {:induction false} ReviewStepKeeps(s: ReviewSystem, ev: ReviewEvent)
    requires ProcessedIsMeaningful(s.review)
    ensures var after := ReviewStep(s, ev).review;
            && ProcessedIsMeaningful(after)
            && (s.review.processedAt.Some? ==> after.processedAt == s.review.processedAt)
  {
    if ev.Attempted? {
      EachKeeps(s.review.epes, |s.review.epes|, ev.a.scripts, s.claims, s.contentions, ev.others);
    }
  }

  /** However often the job is retried, a processed review has no unfinished end product. */
  lemma {:induction false} ProcessedMeansSettled(s: ReviewSystem, events: seq<ReviewEvent>)
    requires s.review.processedAt.None? && forall i :: 0 <= i < |s.review.epes| ==> s.review.epes[i].committedAt.None?
    ensures ProcessedIsMeaningful(After(ReviewStep, s, events).review)
  {
    if events != [] {
      var n := |events| - 1;
      ProcessedMeansSettled(s, events[..n]);
      ReviewStepKeeps(After(ReviewStep, s, events[..n]), events[n]);
    }
  }

  // ---- Claims and contentions of a review -----------------------------------------------------------

  /** What one end product asks of its calls: nothing when it is closed. */
  ghost predicate Calm(epe: Epe, a: Attempt, claims: seq<Claim>, contentions: seq<Contention>, claimed: set<nat>) {
    epe.statusActive ==> NothingFails(epe, a, claims, contentions, claimed)
  }

  lemma {:induction false} EstablishHandles()
    ensures AlwaysTakesFree(Establish) && KeepsSound(Establish) && CalmIsDone(Establish, Calm)
  {
    forall epe, a, claims, contentions, claimed
      ensures TakesFree(epe, claims, claimed, Establish(epe, a, claims, contentions, claimed))
    {
      EstablishTakesFree(epe, a, claims, contentions, claimed);
    }
    forall epe, a, claims, contentions, claimed |
        ContentionsSound(epe, contentions) && StepAccurate(Establish, epe, a, claims, contentions, claimed)
      ensures StaysSound(contentions, Establish(epe, a, claims, contentions, claimed))
    {
      EstablishStaysSound(epe, a, claims, contentions, claimed);
    }
    forall epe, a, claims, contentions, claimed | ContentionsSound(epe, contentions) && Calm(epe, a, claims, contentions, claimed)
      ensures Establish(epe, a, claims, contentions, claimed).outcome == Done
      ensures StaysSound(contentions, Establish(epe, a, claims, contentions, claimed))
    {
      UndisturbedEstablish(epe, a, claims, contentions, claimed);
    }
  }

  predicate NewReview(review: Review) {
    && review.processedAt.None?
    && forall i :: 0 <= i < |review.epes| ==>
         && review.epes[i].claim.None? && review.epes[i].committedAt.None?
         && forall k :: 0 <= k < |review.epes[i].records| ==> review.epes[i].records[k].contention.None?
  }

  ghost predicate EventAccurate(s: ReviewSystem, ev: ReviewEvent) {
    ev.Attempted? ==>
      EachAccurate(Establish, s.review.epes, |s.review.epes|, ev.a.scripts, s.claims, s.contentions, ev.others)
  }

  ghost predicate RunAccurate(s: ReviewSystem, events: seq<ReviewEvent>) {
    events != [] ==>
      var n := |events| - 1;
      RunAccurate(s, events[..n]) && EventAccurate(After(ReviewStep, s, events[..n]), events[n])
  }

  ghost predicate ReviewSound(s: ReviewSystem) {
    ClaimsApart(s.review.epes, s.claims) && EpesSound(s.review.epes, s.contentions)
  }

  lemma {:induction false} ReviewStepStaysSound(s: ReviewSystem, ev: ReviewEvent)
    requires ReviewSound(s) && EventAccurate(s, ev)
    ensures ReviewSound(ReviewStep(s, ev))
  {
    var epes := s.review.epes;
    match ev
    case Attempted(a, others) =>
      EstablishHandles();
      LoopKeepsApart(Establish, epes, |epes|, a.scripts, s.claims, s.contentions, others);
      LoopStaysSound(Establish, epes, |epes|, a.scripts, s.claims, s.contentions, others);
    case StatusSynced(i) =>
      if i < |epes| {
        SameIdsStaySound(epes[i], epes[i].(statusActive := false), s.contentions, s.contentions);
      }
  }

  lemma {:induction false} ReviewRunIsSound(s: ReviewSystem, events: seq<ReviewEvent>)
    requires NewReview(s.review) && RunAccurate(s, events)
    ensures ReviewSound(After(ReviewStep, s, events))
  {
    if events != [] {
      var n := |events| - 1;
      ReviewRunIsSound(s, events[..n]);
      ReviewStepStaysSound(After(ReviewStep, s, events[..n]), events[n]);
    }
  }

  /** Over every run no two issues of the review share a contention. */
  lemma {:induction false} NoIssuesShareContention(s: ReviewSystem, events: seq<ReviewEvent>, i: nat, k: nat, j: nat, l: nat)
    requires NewReview(s.review) && RunAccurate(s, events) && (i, k) != (j, l)
    requires var epes := After(ReviewStep, s, events).review.epes;
             && i < |epes| && k < |epes[i].records| && j < |epes| && l < |epes[j].records|
             && epes[i].records[k].contention.Some?
    ensures var epes := After(ReviewStep, s, events).review.epes;
            epes[i].records[k].contention != epes[j].records[l].contention
  {
    var end := After(ReviewStep, s, events);
    ReviewRunIsSound(s, events);
    ContentionsApart(end.review.epes, end.claims, end.contentions, i, k, j, l);
  }

  /** From every reachable state of a review that needs end products, an attempt in which no call fails ends with
      the review processed and every end product settled. */
  lemma {:induction false} UndisturbedReviewIsProcessed(s: ReviewSystem, events: seq<ReviewEvent>, a: ReviewAttempt,
                                                        others: set<nat>)
    requires NewReview(s.review) && RunAccurate(s, events) && a.legacyIssues
    requires var end := After(ReviewStep, s, events);
             && !(end.review.processedInCaseflow && end.review.epes != [])
             && EachCalm(Establish, Calm, end.review.epes, |end.review.epes|, a.scripts, end.claims, end.contentions, others)
    ensures var end := After(ReviewStep, s, events);
            var (review, _, _, outcome) := EstablishReview(end.review, a, end.claims, end.contentions, others);
            && outcome == Completed && review.processedAt.Some? && !review.error
            && forall i :: 0 <= i < |review.epes| ==> Settled(review.epes[i]) && CommitIsMeaningful(review.epes[i])
  {
    var end := After(ReviewStep, s, events);
    var epes := end.review.epes;
    ReviewRunIsSound(s, events);
    ProcessedMeansSettled(s, events);
    EstablishHandles();
    CalmLoop(Establish, Calm, epes, |epes|, a.scripts, end.claims, end.contentions, others);
    EachKeeps(epes, |epes|, a.scripts, end.claims, end.contentions, others);
  }

  // ---- The same driver on the review object ------------------------------------------------------

  class ClaimReview {
    const processedInCaseflow: bool
    var attemptedAt: Option<nat>
    var processedAt: Option<nat>
    var error: bool
    var endProductEstablishments: seq<Epe>

    function Value(): Review
      reads this
    {
      Review(processedInCaseflow, attemptedAt, processedAt, error, endProductEstablishments)
    }

    function State(vbms: ClaimSystem, ok: bool): Each
      reads this, vbms
    {
      Each(endProductEstablishments, vbms.claims, vbms.contentions, ok)
    }

    /** The loop, with the number of end products it handled. */
    method EstablishUntilFailure(scripts: nat -> Attempt, vbms: ClaimSystem, others: set<nat>) returns (ok: bool, n: nat)
      modifies this`endProductEstablishments, vbms
      ensures n <= |old(endProductEstablishments)| && (ok ==> n == |old(endProductEstablishments)|)
      ensures State(vbms, ok)
           == UntilFailure(Establish, old(endProductEstablishments), n, scripts, old(vbms.claims), old(vbms.contentions), others)
      ensures State(vbms, ok)
           == UntilFailure(Establish, old(endProductEstablishments), |old(endProductEstablishments)|, scripts,
                           old(vbms.claims), old(vbms.contentions), others)
    {
      var after;
      after, ok, n := HandleUntilFailure(Establish, endProductEstablishments, scripts, vbms, others);
      endProductEstablishments := after;
    }

    method EstablishAll(a: ReviewAttempt, vbms: ClaimSystem, others: set<nat>) returns (outcome: ReviewOutcome)
      modifies this, vbms
      ensures (Value(), vbms.claims, vbms.contentions, outcome)
           == EstablishReview(old(Value()), a, old(vbms.claims), old(vbms.contentions), others)
    {
      attemptedAt := Some(a.now);
      if processedInCaseflow && endProductEstablishments != [] {
        return NoEndProductsRequired;
      }
      var ok, n := EstablishUntilFailure(a.scripts, vbms, others);
      if !ok || !a.legacyIssues {
        return Stopped;
      }
      error := false;
      if processedAt.None? {
        processedAt := Some(a.now);
      }
      return Completed;
    }
  }
}
