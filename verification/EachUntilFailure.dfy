/** The loop over the end products of one source, which ends at the first failure. Claim reviews and decision
    documents differ in what they do with each end product. */
module EachUntilFailure {
  import opened Prelude
  import opened EndProductEstablishments
  import opened ContentionMatching
  import opened EstablishmentRuns

  /** What is done with one end product. */
  type Handler = (Epe, Attempt, seq<Claim>, seq<Contention>, set<nat>) -> Result

  datatype Each = Each(epes: seq<Epe>, claims: seq<Claim>, contentions: seq<Contention>, ok: bool)

  function Next(handle: Handler, p: Each, e: nat, a: Attempt, others: set<nat>): (r: Each)
    requires e < |p.epes|
    ensures |r.epes| == |p.epes|
  {
    var r := handle(p.epes[e], a, p.claims, p.contentions, Held(p.epes) + others);
    Each(p.epes[e := r.epe], r.claims, r.contentions, r.outcome.Done?)
  }

  /** One round: nothing after a failure. */
  function Round(handle: Handler, p: Each, e: nat, a: Attempt, others: set<nat>): (r: Each)
    requires e < |p.epes|
    ensures |r.epes| == |p.epes|
  {
    if p.ok then Next(handle, p, e, a, others) else p
  }

  /** Handles the first `n` end products in order, stopping at the first failure. `others` are the claims held
      by records of other sources. */
  function UntilFailure(handle: Handler, epes: seq<Epe>, n: nat, scripts: nat -> Attempt, claims: seq<Claim>,
                        contentions: seq<Contention>, others: set<nat>): (r: Each)
    requires n <= |epes|
    ensures |r.epes| == |epes|
  {
    if n == 0 then Each(epes, claims, contentions, true)
    else
      Round(handle, UntilFailure(handle, epes, n - 1, scripts, claims, contentions, others), n - 1, scripts(n - 1), others)
  }

  /** After a failure the rest of the loop does nothing. */
  lemma {:induction false} StoppedEach(handle: Handler, epes: seq<Epe>, m: nat, n: nat, scripts: nat -> Attempt,
                                       claims: seq<Claim>, contentions: seq<Contention>, others: set<nat>)
    requires m <= n <= |epes|
    requires m == n || !UntilFailure(handle, epes, m, scripts, claims, contentions, others).ok
    ensures UntilFailure(handle, epes, n, scripts, claims, contentions, others)
         == UntilFailure(handle, epes, m, scripts, claims, contentions, others)
  {
    if m < n {
      StoppedEach(handle, epes, m, n - 1, scripts, claims, contentions, others);
    }
  }

  /** What every round keeps holds after the loop. */
  lemma {:induction false} LoopKeeps(handle: Handler, keeps: (nat, Each) -> bool, epes: seq<Epe>, n: nat,
                                     scripts: nat -> Attempt, claims: seq<Claim>, contentions: seq<Contention>,
                                     others: set<nat>)
    requires n <= |epes| && keeps(0, Each(epes, claims, contentions, true))
    requires forall m: nat, p: Each :: m < |epes| == |p.epes| && keeps(m, p) ==>
      keeps(m + 1, Round(handle, p, m, scripts(m), others))
    ensures keeps(n, UntilFailure(handle, epes, n, scripts, claims, contentions, others))
  {
    if n > 0 {
      LoopKeeps(handle, keeps, epes, n - 1, scripts, claims, contentions, others);
      var before := UntilFailure(handle, epes, n - 1, scripts, claims, contentions, others);
      assert keeps(n - 1 + 1, Round(handle, before, n - 1, scripts(n - 1), others));
    }
  }

  // ---- Claims -----------------------------------------------------------------------------------------

  /** Claims exist, and no two end products hold the same one. */
  predicate ClaimsApart(epes: seq<Epe>, claims: seq<Claim>) {
    && (forall e :: 0 <= e < |epes| && epes[e].claim.Some? ==> epes[e].claim.value < |claims|)
    && forall e, f :: 0 <= e < f < |epes| && epes[e].claim.Some? ==> epes[e].claim != epes[f].claim
  }

  ghost predicate AlwaysTakesFree(handle: Handler) {
    forall epe, a, claims, contentions, claimed :: TakesFree(epe, claims, claimed, handle(epe, a, claims, contentions, claimed))
  }

  lemma {:induction false} NextKeepsApart(before: Each, n: nat, r: Result, others: set<nat>)
    requires n < |before.epes| && ClaimsApart(before.epes, before.claims)
    requires TakesFree(before.epes[n], before.claims, Held(before.epes) + others, r)
    ensures ClaimsApart(before.epes[n := r.epe], r.claims)
  {
    var after := before.epes[n := r.epe];
    forall e, f | 0 <= e < f < |after| && after[e].claim.Some?
      ensures after[e].claim != after[f].claim
    {
      assert forall m :: 0 <= m < |before.epes| && before.epes[m].claim.Some? ==>
        before.epes[m].claim.value in Held(before.epes) && before.epes[m].claim.value < |before.claims|;
    }
  }

  lemma {:induction false} LoopKeepsApart(handle: Handler, epes: seq<Epe>, n: nat, scripts: nat -> Attempt,
                                          claims: seq<Claim>, contentions: seq<Contention>, others: set<nat>)
    requires n <= |epes| && AlwaysTakesFree(handle) && ClaimsApart(epes, claims)
    ensures var r := UntilFailure(handle, epes, n, scripts, claims, contentions, others);
            claims <= r.claims && ClaimsApart(r.epes, r.claims)
  {
    if n > 0 {
      LoopKeepsApart(handle, epes, n - 1, scripts, claims, contentions, others);
      var before := UntilFailure(handle, epes, n - 1, scripts, claims, contentions, others);
      var r := handle(before.epes[n - 1], scripts(n - 1), before.claims, before.contentions, Held(before.epes) + others);
      NextKeepsApart(before, n - 1, r, others);
    }
  }

  // ---- Contentions -------------------------------------------------------------------------------------

  ghost predicate EpesSound(epes: seq<Epe>, contentions: seq<Contention>) {
    forall e :: 0 <= e < |epes| ==> ContentionsSound(epes[e], contentions)
  }

  /** With claims apart and ids sound, no two records share a contention. */
  lemma {:induction false} ContentionsApart(epes: seq<Epe>, claims: seq<Claim>, contentions: seq<Contention>,
                                            i: nat, k: nat, j: nat, l: nat)
    requires ClaimsApart(epes, claims) && EpesSound(epes, contentions) && (i, k) != (j, l)
    requires i < |epes| && k < |epes[i].records| && j < |epes| && l < |epes[j].records|
    requires epes[i].records[k].contention.Some?
    ensures epes[i].records[k].contention != epes[j].records[l].contention
  {
    assert ContentionsSound(epes[i], contentions) && ContentionsSound(epes[j], contentions);
    if i == j {
      assert DistinctIds(epes[i].records);
    } else {
      assert epes[i].claim != epes[j].claim;
    }
  }

  /** The list of contentions answered to this step, if any, is accurate. */
  ghost predicate StepAccurate(handle: Handler, epe: Epe, a: Attempt, claims: seq<Claim>, contentions: seq<Contention>,
                               claimed: set<nat>) {
    a.contentionReply.Answered? ==>
      Accurate(a.contentionReply.list, handle(epe, a, claims, contentions, claimed).contentions)
  }

  ghost predicate EachAccurate(handle: Handler, epes: seq<Epe>, n: nat, scripts: nat -> Attempt, claims: seq<Claim>,
                               contentions: seq<Contention>, others: set<nat>)
    requires n <= |epes|
  {
    n > 0 ==>
      var before := UntilFailure(handle, epes, n - 1, scripts, claims, contentions, others);
      && EachAccurate(handle, epes, n - 1, scripts, claims, contentions, others)
      && (before.ok ==>
            StepAccurate(handle, before.epes[n - 1], scripts(n - 1), before.claims, before.contentions,
                         Held(before.epes) + others))
  }

  ghost predicate StaysSound(contentions: seq<Contention>, r: Result) {
    contentions <= r.contentions && ContentionsSound(r.epe, r.contentions)
  }

  ghost predicate KeepsSound(handle: Handler) {
    forall epe, a, claims, contentions, claimed ::
      ContentionsSound(epe, contentions) && StepAccurate(handle, epe, a, claims, contentions, claimed)
      ==> StaysSound(contentions, handle(epe, a, claims, contentions, claimed))
  }

  lemma {:induction false} NextStaysSound(epes: seq<Epe>, n: nat, contentions: seq<Contention>, r: Result)
    requires n < |epes| && EpesSound(epes, contentions) && StaysSound(contentions, r)
    ensures EpesSound(epes[n := r.epe], r.contentions)
  {
    forall e | 0 <= e < |epes| && e != n
      ensures ContentionsSound(epes[e], r.contentions)
    {
      SameIdsStaySound(epes[e], epes[e], contentions, r.contentions);
    }
  }

  lemma {:induction false} LoopStaysSound(handle: Handler, epes: seq<Epe>, n: nat, scripts: nat -> Attempt,
                                          claims: seq<Claim>, contentions: seq<Contention>, others: set<nat>)
    requires n <= |epes| && KeepsSound(handle) && EpesSound(epes, contentions)
    requires EachAccurate(handle, epes, n, scripts, claims, contentions, others)
    ensures var r := UntilFailure(handle, epes, n, scripts, claims, contentions, others); EpesSound(r.epes, r.contentions)
  {
    if n > 0 {
      LoopStaysSound(handle, epes, n - 1, scripts, claims, contentions, others);
      var before := UntilFailure(handle, epes, n - 1, scripts, claims, contentions, others);
      if before.ok {
        var r := handle(before.epes[n - 1], scripts(n - 1), before.claims, before.contentions, Held(before.epes) + others);
        NextStaysSound(before.epes, n - 1, before.contentions, r);
      }
    }
  }

  // ---- An attempt in which nothing fails -----------------------------------------------------------------

  /** What each end product in turn has to find, `calm` being what it asks of its own calls. */
  ghost predicate EachCalm(handle: Handler, calm: (Epe, Attempt, seq<Claim>, seq<Contention>, set<nat>) -> bool,
                           epes: seq<Epe>, n: nat, scripts: nat -> Attempt, claims: seq<Claim>,
                           contentions: seq<Contention>, others: set<nat>)
    requires n <= |epes|
  {
    n > 0 ==>
      var before := UntilFailure(handle, epes, n - 1, scripts, claims, contentions, others);
      && EachCalm(handle, calm, epes, n - 1, scripts, claims, contentions, others)
      && calm(before.epes[n - 1], scripts(n - 1), before.claims, before.contentions, Held(before.epes) + others)
  }

  ghost predicate CalmIsDone(handle: Handler, calm: (Epe, Attempt, seq<Claim>, seq<Contention>, set<nat>) -> bool) {
    forall epe, a, claims, contentions, claimed ::
      ContentionsSound(epe, contentions) && calm(epe, a, claims, contentions, claimed)
      ==> handle(epe, a, claims, contentions, claimed).outcome == Done
          && StaysSound(contentions, handle(epe, a, claims, contentions, claimed))
  }

  /** The loop gets through when no call fails. */
  lemma {:induction false} CalmLoop(handle: Handler, calm: (Epe, Attempt, seq<Claim>, seq<Contention>, set<nat>) -> bool,
                                    epes: seq<Epe>, n: nat, scripts: nat -> Attempt, claims: seq<Claim>,
                                    contentions: seq<Contention>, others: set<nat>)
    requires n <= |epes| && CalmIsDone(handle, calm) && EpesSound(epes, contentions)
    requires EachCalm(handle, calm, epes, n, scripts, claims, contentions, others)
    ensures var r := UntilFailure(handle, epes, n, scripts, claims, contentions, others);
            r.ok && EpesSound(r.epes, r.contentions)
  {
    if n > 0 {
      CalmLoop(handle, calm, epes, n - 1, scripts, claims, contentions, others);
      var before := UntilFailure(handle, epes, n - 1, scripts, claims, contentions, others);
      var r := handle(before.epes[n - 1], scripts(n - 1), before.claims, before.contentions, Held(before.epes) + others);
      assert ContentionsSound(before.epes[n - 1], before.contentions);
      NextStaysSound(before.epes, n - 1, before.contentions, r);
    }
  }

  /** The loop against the remote system, with the number of end products it reached. */
  method HandleUntilFailure(handle: Handler, epes: seq<Epe>, scripts: nat -> Attempt, vbms: ClaimSystem, others: set<nat>)
      returns (after: seq<Epe>, ok: bool, n: nat)
    modifies vbms
    ensures n <= |epes| && (ok ==> n == |epes|)
    ensures Each(after, vbms.claims, vbms.contentions, ok)
         == UntilFailure(handle, epes, n, scripts, old(vbms.claims), old(vbms.contentions), others)
    ensures Each(after, vbms.claims, vbms.contentions, ok)
         == UntilFailure(handle, epes, |epes|, scripts, old(vbms.claims), old(vbms.contentions), others)
  {
    after, ok, n := epes, true, 0;
    while n < |epes| && ok
      invariant 0 <= n <= |epes| == |after|
      invariant Each(after, vbms.claims, vbms.contentions, ok)
             == UntilFailure(handle, epes, n, scripts, old(vbms.claims), old(vbms.contentions), others)
    {
      var r := handle(after[n], scripts(n), vbms.claims, vbms.contentions, Held(after) + others);
      after := after[n := r.epe];
      vbms.claims := r.claims;
      vbms.contentions := r.contentions;
      ok := r.outcome.Done?;
      n := n + 1;
    }
    StoppedEach(handle, epes, n, |epes|, scripts, old(vbms.claims), old(vbms.contentions), others);
  }
}
