/** Runs of establishment attempts on many records against one remote claim system. Any attempt may die
    at any external call; claims may be closed, statuses synced, issues closed, and claims and contentions
    added by others in between. */
module EstablishmentRuns {
  import opened Prelude
  import opened EndProductEstablishments
  import opened ContentionMatching

  /** `lost` collects the records for which a claim was created without being saved locally. */
  datatype System = System(epes: seq<Epe>, claims: seq<Claim>, contentions: seq<Contention>, lost: set<nat>)

  datatype Event =
    | Attempted(i: nat, a: Attempt)
    | ForeignClaim(made: Claim)
    | ClaimClosed(id: nat)
    | StatusSynced(i: nat)
    | IssueClosed(i: nat, k: nat)
    | ForeignContention(c: Contention)

  function Held(epes: seq<Epe>): (ids: set<nat>)
    ensures forall id :: id in ids <==> exists i :: 0 <= i < |epes| && epes[i].claim == Some(id)
  {
    set i | 0 <= i < |epes| && epes[i].claim.Some? :: epes[i].claim.value
  }

  function AttemptResult(s: System, i: nat, a: Attempt): Result
    requires i < |s.epes|
  {
    Establish(s.epes[i], a, s.claims, s.contentions, Held(s.epes))
  }

  function Step(s: System, ev: Event): System {
    match ev
    case Attempted(i, a) =>
      if i < |s.epes| then
        var r := AttemptResult(s, i, a);
        System(s.epes[i := r.epe], r.claims, r.contentions,
               if |r.claims| > |s.claims| && r.epe.claim.None? then s.lost + {i} else s.lost)
      else s
    case ForeignClaim(made) => s.(claims := s.claims + [made])
    case ClaimClosed(id) =>
      if id < |s.claims| then s.(claims := s.claims[id := s.claims[id].(active := false)]) else s
    case StatusSynced(i) =>
      if i < |s.epes| then s.(epes := s.epes[i := s.epes[i].(statusActive := false)]) else s
    case IssueClosed(i, k) =>
      if i < |s.epes| && k < |s.epes[i].records| then
        var e := s.epes[i];
        s.(epes := s.epes[i := e.(records := e.records[k := e.records[k].(active := false)])])
      else s
    case ForeignContention(c) => s.(contentions := s.contentions + [c])
  }

  function Run(s: System, events: seq<Event>): System {
    After(Step, s, events)
  }

  /** Nothing established yet, and no open claim that one of the records could take for its own. */
  predicate Initial(s: System) {
    && (forall i :: 0 <= i < |s.epes| ==>
          && s.epes[i].claim.None? && s.epes[i].committedAt.None?
          && forall k :: 0 <= k < |s.epes[i].records| ==> s.epes[i].records[k].contention.None?)
    && (forall i, id :: 0 <= i < |s.epes| && 0 <= id < |s.claims| && s.claims[id].key == s.epes[i].key ==>
          !s.claims[id].active)
    && s.lost == {}
  }

  // ---- What one attempt does to the claims -------------------------------------------------------

  /** How an attempt may change the claims and the claim of its own record `i`. */
  datatype ClaimMove = Nothing | Took(id: nat) | Made | LostIt

  predicate Moves(s: System, i: nat, e: Epe, claims: seq<Claim>, move: ClaimMove)
    requires i < |s.epes|
  {
    var was := s.epes[i];
    && e.key == was.key
    && claims == (if move.Made? || move.LostIt? then s.claims + [Claim(was.key, true)] else s.claims)
    && (!move.Nothing? ==> was.claim.None?)
    && match move
       case Nothing => e.claim == was.claim
       case Took(id) => e.claim == Some(id) && id < |s.claims| && s.claims[id] == Claim(was.key, true) && id !in Held(s.epes)
       case Made => e.claim == Some(|s.claims|)
       case LostIt => e.claim == None
  }

  lemma {:induction false} FinishKeepsClaim(epe: Epe, a: Attempt)
    ensures Finish(epe, a).0.key == epe.key && Finish(epe, a).0.claim == epe.claim
  {
  }

  lemma {:induction false} CreateContentionsKeepsClaim(epe: Epe, a: Attempt, contentions: seq<Contention>)
    requires epe.claim.Some?
    ensures CreateContentions(epe, a, contentions).0.key == epe.key
    ensures CreateContentions(epe, a, contentions).0.claim == epe.claim
  {
  }

  /** The claim an attempt ends with is decided by `perform!`. */
  lemma {:induction false} EstablishClaim(epe: Epe, a: Attempt, claims: seq<Claim>, contentions: seq<Contention>,
                                          claimed: set<nat>)
    requires epe.statusActive
    ensures var r := Establish(epe, a, claims, contentions, claimed);
            var (performed, claims', _) := Perform(epe, a, claims, claimed);
            r.epe.key == epe.key && r.epe.claim == performed.claim && r.claims == claims'
  {
    var (performed, _, outcome) := Perform(epe, a, claims, claimed);
    if outcome == Done {
      CreateContentionsKeepsClaim(performed, a, contentions);
      FinishKeepsClaim(CreateContentions(performed, a, contentions).0, a);
    }
  }

  function MoveOf(s: System, i: nat, a: Attempt): ClaimMove
    requires i < |s.epes|
  {
    var was := s.epes[i];
    if !was.statusActive || was.claim.Some? then Nothing
    else
      var recovered := Recovered(was, a, s.claims, Held(s.epes));
      if recovered.Some? then Took(recovered.value)
      else if !a.valid || a.claimReply.Refused? then Nothing
      else if a.claimReply.Lost? then LostIt
      else Made
  }

  lemma {:induction false} AttemptMoves(s: System, i: nat, a: Attempt)
    requires i < |s.epes|
    ensures Moves(s, i, AttemptResult(s, i, a).epe, AttemptResult(s, i, a).claims, MoveOf(s, i, a))
  {
    if s.epes[i].statusActive {
      EstablishClaim(s.epes[i], a, s.claims, s.contentions, Held(s.epes));
    }
  }

  /** No two records hold the same claim, and every held claim is a stored one of the same key. */
  ghost predicate ClaimsUnshared(s: System) {
    && (forall i :: 0 <= i < |s.epes| && s.epes[i].claim.Some? ==>
          && s.epes[i].claim.value < |s.claims|
          && s.claims[s.epes[i].claim.value].key == s.epes[i].key)
    && forall i, j :: 0 <= i < j < |s.epes| && s.epes[i].claim.Some? ==> s.epes[i].claim != s.epes[j].claim
  }

  lemma {:induction false} StepKeepsClaimsUnshared(s: System, ev: Event)
    requires ClaimsUnshared(s)
    ensures ClaimsUnshared(Step(s, ev))
  {
    if ev.Attempted? && ev.i < |s.epes| {
      AttemptMoves(s, ev.i, ev.a);
      var r := AttemptResult(s, ev.i, ev.a);
      MoveKeepsClaimsUnshared(s, ev.i, r.epe, r.claims, MoveOf(s, ev.i, ev.a), Step(s, ev));
    }
  }

  lemma {:induction false} MoveKeepsClaimsUnshared(s: System, i: nat, e: Epe, claims: seq<Claim>, move: ClaimMove,
                                                   s': System)
    requires i < |s.epes| && ClaimsUnshared(s) && Moves(s, i, e, claims, move)
    requires s'.epes == s.epes[i := e] && s'.claims == claims
    ensures ClaimsUnshared(s')
  {
    assert forall j :: 0 <= j < |s.epes| && s.epes[j].claim.Some? ==> s.epes[j].claim.value in Held(s.epes);
  }

  /** Whatever happens, and in whatever order, no claim is ever held by two records. */
  lemma {:induction false} NoClaimIsShared(s: System, events: seq<Event>)
    requires Initial(s)
    ensures ClaimsUnshared(Run(s, events))
  {
    if events != [] {
      NoClaimIsShared(s, events[..|events| - 1]);
      StepKeepsClaimsUnshared(Run(s, events[..|events| - 1]), events[|events| - 1]);
    }
  }

  // ---- Exactly-once claims -------------------------------------------------------------------------

  /** Open claims of this key that no record holds. */
  function Unclaimed(s: System, key: Key): set<nat> {
    set id | 0 <= id < |s.claims| && s.claims[id] == Claim(key, true) && id !in Held(s.epes)
  }

  /** Records of this key without a claim of their own although one was created for them. */
  function InDoubt(s: System, key: Key): set<nat> {
    set i | 0 <= i < |s.epes| && i in s.lost && s.epes[i].claim.None? && s.epes[i].key == key
  }

  /** The veteran's end products are listed completely. */
  ghost predicate ListingComplete(s: System, ev: Event) {
    ev.Attempted? && ev.i < |s.epes| ==>
      forall id :: 0 <= id < |s.claims| && s.claims[id].key.veteran == s.epes[ev.i].key.veteran ==> id in ev.a.listing
  }

  /** A record in doubt is retried by a job that says it was attempted before. */
  predicate RetryFlagged(s: System, ev: Event) {
    ev.Attempted? && ev.i < |s.epes| && ev.i in s.lost && s.epes[ev.i].claim.None? ==>
      ev.a.job.lastSubmittedAt != ev.a.job.submittedAt
  }

  predicate OrphansBounded(s: System, key: Key) { |Unclaimed(s, key)| <= |InDoubt(s, key)| }

  /** The retry goes straight to creating a claim for a record in doubt, with no spare doubt left. */
  predicate BlindRetry(s: System, ev: Event, key: Key) {
    && ev.Attempted? && ev.i < |s.epes| && !RetryFlagged(s, ev)
    && s.epes[ev.i].statusActive && s.epes[ev.i].key == key
    && ev.a.valid && !ev.a.claimReply.Refused?
    && |Unclaimed(s, key)| == |InDoubt(s, key)|
  }

  /** Somebody else opens a claim of the same key, which nothing tells from a lost one. */
  predicate TwinAdded(s: System, ev: Event, key: Key) {
    ev == ForeignClaim(Claim(key, true)) && |Unclaimed(s, key)| == |InDoubt(s, key)|
  }

  predicate NoTwin(s: System, ev: Event) {
    ev.ForeignClaim? && ev.made.active ==> forall i :: 0 <= i < |s.epes| ==> s.epes[i].key != ev.made.key
  }

  lemma {:induction false} HeldAfter(s: System, i: nat, e: Epe, claims: seq<Claim>, move: ClaimMove)
    requires i < |s.epes| && ClaimsUnshared(s) && Moves(s, i, e, claims, move)
    ensures Held(s.epes[i := e]) == Held(s.epes) + match move
              case Took(id) => {id}
              case Made => {|s.claims|}
              case _ => {}
  {
    var after := s.epes[i := e];
    assert forall j :: 0 <= j < |s.epes| && s.epes[j].claim.Some? ==> after[j].claim == s.epes[j].claim;
    assert after[i].claim.Some? ==> after[i].claim.value in Held(after);
  }

  lemma {:induction false} UnclaimedAfter(s: System, i: nat, e: Epe, claims: seq<Claim>, move: ClaimMove, s': System,
                                          key: Key)
    requires i < |s.epes| && ClaimsUnshared(s) && Moves(s, i, e, claims, move)
    requires s'.epes == s.epes[i := e] && s'.claims == claims
    ensures s.epes[i].key != key ==> Unclaimed(s', key) == Unclaimed(s, key)
    ensures s.epes[i].key == key ==> match move
      case Took(id) => Unclaimed(s, key) == Unclaimed(s', key) + {id} && id !in Unclaimed(s', key)
      case LostIt => Unclaimed(s', key) == Unclaimed(s, key) + {|s.claims|} && |s.claims| !in Unclaimed(s, key)
      case _ => Unclaimed(s', key) == Unclaimed(s, key)
  {
    HeldAfter(s, i, e, claims, move);
    assert forall id :: id in Held(s.epes) ==> id < |s.claims|;
  }

  lemma {:induction false} InDoubtAfter(s: System, i: nat, e: Epe, claims: seq<Claim>, move: ClaimMove, s': System,
                                        key: Key)
    requires i < |s.epes| && Moves(s, i, e, claims, move)
    requires s'.epes == s.epes[i := e] && s'.lost == if move.LostIt? then s.lost + {i} else s.lost
    ensures s.epes[i].key != key || move.Nothing? ==> InDoubt(s', key) == InDoubt(s, key)
    ensures s.epes[i].key == key && move.LostIt? ==> InDoubt(s', key) == InDoubt(s, key) + {i}
    ensures s.epes[i].key == key && (move.Made? || move.Took?) ==> InDoubt(s', key) == InDoubt(s, key) - {i}
  {
  }

  lemma {:induction false} Cardinality(small: set<nat>, x: nat)
    ensures |small + {x}| == |small| + if x in small then 0 else 1
    ensures |small - {x}| == |small| - if x in small then 1 else 0
  {
    if x in small {
      assert small + {x} == small && small == (small - {x}) + {x};
    } else {
      assert small - {x} == small;
    }
  }

  /** Completeness of the listing: a flagged retry finds nothing only when nothing is unclaimed. */
  lemma {:induction false} NothingToRecover(s: System, i: nat, a: Attempt)
    requires ListingComplete(s, Attempted(i, a)) && i < |s.epes| && s.epes[i].claim.None?
    requires PreviouslyAttempted(a.job) && Recovered(s.epes[i], a, s.claims, Held(s.epes)).None?
    ensures Unclaimed(s, s.epes[i].key) == {}
  {
  }

  /** The sizes of both sets after an attempt, by the move it made. */
  lemma {:induction false} SizesAfter(s: System, i: nat, a: Attempt, key: Key)
    requires i < |s.epes| && ClaimsUnshared(s)
    ensures var s', move, ours := Step(s, Attempted(i, a)), MoveOf(s, i, a), s.epes[i].key == key;
            && |Unclaimed(s', key)| == |Unclaimed(s, key)| + (if !ours then 0 else if move.Took? then -1 else if move.LostIt? then 1 else 0)
            && |InDoubt(s', key)| == |InDoubt(s, key)| + (
                 if !ours || move.Nothing? then 0
                 else if move.LostIt? then (if i in InDoubt(s, key) then 0 else 1)
                 else if i in InDoubt(s, key) then -1 else 0)
  {
    var s', move := Step(s, Attempted(i, a)), MoveOf(s, i, a);
    var r := AttemptResult(s, i, a);
    AttemptMoves(s, i, a);
    UnclaimedAfter(s, i, r.epe, r.claims, move, s', key);
    InDoubtAfter(s, i, r.epe, r.claims, move, s', key);
    Cardinality(InDoubt(s, key), i);
    Cardinality(Unclaimed(s, key), |s.claims|);
    if move.Took? {
      Cardinality(Unclaimed(s', key), move.id);
    }
  }

  lemma {:induction false} ForeignClaimSizes(s: System, made: Claim, key: Key)
    requires ClaimsUnshared(s)
    ensures var s' := Step(s, ForeignClaim(made));
            && |Unclaimed(s', key)| == |Unclaimed(s, key)| + (if made == Claim(key, true) then 1 else 0)
            && InDoubt(s', key) == InDoubt(s, key)
  {
    var s', id := s.(claims := s.claims + [made]), |s.claims|;
    assert id !in Held(s.epes);
    assert forall other :: other in Unclaimed(s', key) <==> other in Unclaimed(s, key) || (other == id && made == Claim(key, true));
    assert id !in Unclaimed(s, key);
    assert made == Claim(key, true) ==> Unclaimed(s', key) == Unclaimed(s, key) + {id};
    assert made != Claim(key, true) ==> Unclaimed(s', key) == Unclaimed(s, key);
  }

  /** One event keeps the orphans bounded exactly when it is neither a blind retry nor a twin of a record's
      claim made by somebody else. */
  lemma {:induction false} OrphansBoundedIff(s: System, ev: Event, key: Key)
    requires ClaimsUnshared(s) && ListingComplete(s, ev) && OrphansBounded(s, key)
    ensures OrphansBounded(Step(s, ev), key) <==> !BlindRetry(s, ev, key) && !TwinAdded(s, ev, key)
  {
    var s' := Step(s, ev);
    if ev.Attempted? && ev.i < |s.epes| {
      SizesAfter(s, ev.i, ev.a, key);
      var move := MoveOf(s, ev.i, ev.a);
      if (move.Made? || move.LostIt?) && PreviouslyAttempted(ev.a.job) {
        NothingToRecover(s, ev.i, ev.a);
      }
    } else if ev.ForeignClaim? {
      ForeignClaimSizes(s, ev.made, key);
    } else {
      assert |s'.epes| == |s.epes| && forall j :: 0 <= j < |s.epes| ==> s'.epes[j].claim == s.epes[j].claim;
      assert Held(s'.epes) == Held(s.epes);
      assert InDoubt(s', key) == InDoubt(s, key);
      assert Unclaimed(s', key) <= Unclaimed(s, key);
      SmallerSet(Unclaimed(s', key), Unclaimed(s, key));
    }
  }

  lemma {:induction false} SmallerSet(a: set<nat>, b: set<nat>)
    requires a <= b
    ensures |a| <= |b|
  {
    if a != {} {
      var x :| x in a;
      SmallerSet(a - {x}, b - {x});
    }
  }

  /** Every event of the run meets the listing contract and flags its retries, and no other system opens a claim
      of a record's key. */
  ghost predicate Careful(s: System, events: seq<Event>) {
    events != [] ==>
      var n := |events| - 1;
      var before := Run(s, events[..n]);
      && Careful(s, events[..n]) && ListingComplete(before, events[n])
      && RetryFlagged(before, events[n]) && NoTwin(before, events[n])
  }

  lemma {:induction false} OrphansStayBounded(s: System, events: seq<Event>, key: Key)
    requires Initial(s) && Careful(s, events)
    requires exists i :: 0 <= i < |s.epes| && s.epes[i].key == key
    ensures OrphansBounded(Run(s, events), key)
  {
    if events == [] {
      assert Unclaimed(s, key) == {};
    } else {
      var n := |events| - 1;
      OrphansStayBounded(s, events[..n], key);
      NoClaimIsShared(s, events[..n]);
      RunKeepsKeys(s, events[..n]);
      OrphansBoundedIff(Run(s, events[..n]), events[n], key);
    }
  }

  lemma {:induction false} StepKeepsKeys(s: System, ev: Event)
    ensures |Step(s, ev).epes| == |s.epes|
    ensures forall i :: 0 <= i < |s.epes| ==> Step(s, ev).epes[i].key == s.epes[i].key
  {
    if ev.Attempted? && ev.i < |s.epes| {
      AttemptMoves(s, ev.i, ev.a);
    }
  }

  lemma {:induction false} RunKeepsKeys(s: System, events: seq<Event>)
    ensures |Run(s, events).epes| == |s.epes|
    ensures forall i :: 0 <= i < |s.epes| ==> Run(s, events).epes[i].key == s.epes[i].key
  {
    if events != [] {
      RunKeepsKeys(s, events[..|events| - 1]);
      StepKeepsKeys(Run(s, events[..|events| - 1]), events[|events| - 1]);
    }
  }

  /** Exactly once: when every record of a key has its claim, each open claim of that key is held by one
      record and by no other. */
  lemma {:induction false} EveryClaimHeldOnce(s: System, events: seq<Event>, key: Key, id: nat) returns (i: nat)
    requires Initial(s) && Careful(s, events)
    requires exists i :: 0 <= i < |s.epes| && s.epes[i].key == key
    requires var end := Run(s, events);
             && (forall i :: 0 <= i < |end.epes| && end.epes[i].key == key ==> end.epes[i].claim.Some?)
             && id < |end.claims| && end.claims[id] == Claim(key, true)
    ensures var end := Run(s, events);
            && i < |end.epes| && end.epes[i].key == key && end.epes[i].claim == Some(id)
            && forall j :: 0 <= j < |end.epes| && end.epes[j].claim == Some(id) ==> j == i
  {
    var end := Run(s, events);
    OrphansStayBounded(s, events, key);
    NoClaimIsShared(s, events);
    assert InDoubt(end, key) == {};
    assert id !in Unclaimed(end, key);
    i :| 0 <= i < |end.epes| && end.epes[i].claim == Some(id);
    assert end.claims[id].key == end.epes[i].key;
  }

  const EXAMPLE_KEY := Key("veteran", "030HLRR", 0, "00")
  const EXAMPLE_EPE := Epe(EXAMPLE_KEY, None, None, None, None, None, true, false, [])
  /** An attempt by a job whose two submission times agree, so that it does not look for lost claims. */
  const UNFLAGGED := Attempt(1, Job(7, 7), [0, 1], true, Lost, Rejected, true, None, None)

  lemma {:induction false} LostOnce(s: System)
    requires s == System([EXAMPLE_EPE], [], [], {})
    ensures Step(s, Attempted(0, UNFLAGGED)) == System([EXAMPLE_EPE], [Claim(EXAMPLE_KEY, true)], [], {0})
  {
    assert Perform(EXAMPLE_EPE, UNFLAGGED, [], Held(s.epes)).2.Failed?;
    assert s.epes[0 := EXAMPLE_EPE] == s.epes;
  }

  lemma {:induction false} UnflaggedRetry(s: System)
    requires s == System([EXAMPLE_EPE], [Claim(EXAMPLE_KEY, true)], [], {0})
    ensures var end := Step(s, Attempted(0, UNFLAGGED.(claimReply := Created)));
            |end.epes| == 1 && end.epes[0].claim == Some(1) && Unclaimed(end, EXAMPLE_KEY) == {0}
  {
    var again := UNFLAGGED.(claimReply := Created);
    AttemptMoves(s, 0, again);
    var end := Step(s, Attempted(0, again));
    assert MoveOf(s, 0, again) == Made;
    assert end.epes[0].claim == Some(1) && 1 in Held(end.epes);
    assert end.claims == [Claim(EXAMPLE_KEY, true), Claim(EXAMPLE_KEY, true)];
  }

  lemma {:induction false} RunOfTwo(s: System, e1: Event, e2: Event)
    ensures Run(s, [e1, e2]) == Step(Step(s, e1), e2)
  {
    AfterConcat(Step, s, [e1], [e2]);
    assert [e1] + [e2] == [e1, e2];
    assert [e1][..0] == [] && [e2][..0] == [];
  }

  /** Without the flag the claim is created twice: a lost creation followed by an unflagged retry. */
  lemma {:induction false} UnflaggedRetryCreatesTwice() returns (s: System, events: seq<Event>)
    ensures Initial(s) && |events| == 2 && events[0].Attempted? && events[1].Attempted?
    ensures ListingComplete(s, events[0]) && ListingComplete(Step(s, events[0]), events[1])
    ensures var end := Run(s, events);
            |end.epes| == 1 && end.epes[0].claim == Some(1) && Unclaimed(end, EXAMPLE_KEY) == {0}
  {
    s := System([EXAMPLE_EPE], [], [], {});
    events := [Attempted(0, UNFLAGGED), Attempted(0, UNFLAGGED.(claimReply := Created))];
    LostOnce(s);
    UnflaggedRetry(Step(s, events[0]));
    RunOfTwo(s, events[0], events[1]);
  }

  // ---- What a commit means ---------------------------------------------------------------------------

  /** Everything a commit is a sign of. */
  predicate FullyEstablished(e: Epe) {
    && e.claim.Some?
    && (forall k :: 0 <= k < |e.records| && e.records[k].active ==> e.records[k].contention.Some?)
    && (forall k :: 0 <= k < |e.records| ==> !Unassociated(e.records[k]))
    && (e.informalConference ==> e.letter.Some? && e.item.Some?)
  }

  predicate CommitIsMeaningful(e: Epe) { e.committedAt.Some? ==> FullyEstablished(e) }

  /** Ids and times once set are never overwritten, and no record disappears. */
  predicate Kept(before: Epe, after: Epe) {
    && after.key == before.key && after.informalConference == before.informalConference
    && (before.claim.Some? ==> after.claim == before.claim && after.establishedAt == before.establishedAt)
    && (before.letter.Some? ==> after.letter == before.letter)
    && (before.item.Some? ==> after.item == before.item)
    && (before.committedAt.Some? ==> after.committedAt == before.committedAt)
    && |after.records| == |before.records|
    && forall k :: 0 <= k < |before.records| ==>
         && after.records[k].id == before.records[k].id && after.records[k].text == before.records[k].text
         && after.records[k].ratingIssue == before.records[k].ratingIssue
         && (before.records[k].contention.Some? ==> after.records[k].contention == before.records[k].contention)
  }

  lemma {:induction false} PerformKeeps(epe: Epe, a: Attempt, claims: seq<Claim>, claimed: set<nat>)
    ensures var (after, _, outcome) := Perform(epe, a, claims, claimed);
            && Kept(epe, after) && (outcome.Done? ==> after.claim.Some?)
            && after == epe.(claim := after.claim, establishedAt := after.establishedAt)
            && (CommitIsMeaningful(epe) ==> CommitIsMeaningful(after))
  {
  }

  lemma {:induction false} CreateContentionsKeeps(epe: Epe, a: Attempt, contentions: seq<Contention>)
    requires epe.claim.Some?
    ensures var (after, _, outcome) := CreateContentions(epe, a, contentions);
            && Kept(epe, after)
            && (outcome.Done? ==> forall k :: 0 <= k < |after.records| ==> !Waiting(after.records[k]))
            && (CommitIsMeaningful(epe) ==> CommitIsMeaningful(after))
  {
    var (after, _, _) := CreateContentions(epe, a, contentions);
    ReadyIsEmpty(epe.records);
    ReadyIsEmpty(after.records);
    if Ready(epe.records) != [] && a.contentionReply.Answered? {
      var Answered(list, handled) := a.contentionReply;
      var seen := if handled < |list| then list[..handled] else list;
      MatchAllOnlyFillsWaiting(epe.records, Known(epe.records), epe.claim, seen);
      assert forall k :: 0 <= k < |epe.records| ==>
        Matched(epe.records[k], after.records[k], Known(epe.records), epe.claim, seen);
    }
  }

  lemma {:induction false} AssociateKeeps(epe: Epe, a: Attempt)
    ensures var (after, outcome) := AssociateRatingIssues(epe, a);
            && Kept(epe, after) && after == epe.(records := after.records)
            && (forall k :: 0 <= k < |epe.records| ==>
                  after.records[k].active == epe.records[k].active && after.records[k].contention == epe.records[k].contention)
            && (outcome.Done? ==> forall k :: 0 <= k < |epe.records| ==> !Unassociated(after.records[k]))
            && ((forall k :: 0 <= k < |epe.records| ==> !Unassociated(epe.records[k])) ==> after == epe)
  {
  }

  lemma {:induction false} FinishKeeps(epe: Epe, a: Attempt)
    requires epe.claim.Some? && forall k :: 0 <= k < |epe.records| ==> !Waiting(epe.records[k])
    requires CommitIsMeaningful(epe)
    ensures var (after, outcome) := Finish(epe, a);
            && Kept(epe, after) && CommitIsMeaningful(after)
            && (outcome.Done? ==> after.committedAt.Some?)
  {
    AssociateKeeps(epe, a);
    var (associated, outcome) := AssociateRatingIssues(epe, a);
    assert CommitIsMeaningful(associated);
    assert forall k :: 0 <= k < |epe.records| && associated.records[k].active ==> associated.records[k].contention.Some? by {
      assert forall k :: 0 <= k < |epe.records| ==> !Waiting(epe.records[k]);
    }
    if outcome.Done? {
      LettersKeep(associated, a);
    }
  }

  lemma {:induction false} LettersKeep(epe: Epe, a: Attempt)
    requires FullyEstablished(epe.(informalConference := false))
    requires CommitIsMeaningful(epe) && AssociateRatingIssues(epe, a) == (epe, Done)
    ensures var (after, outcome) := Finish(epe, a);
            && Kept(epe, after) && CommitIsMeaningful(after)
            && (outcome.Done? ==> after.committedAt.Some?)
  {
    var (after, outcome) := Finish(epe, a);
    assert after == epe.(letter := after.letter, item := after.item, committedAt := after.committedAt);
  }

  lemma {:induction false} EstablishKeeps(epe: Epe, a: Attempt, claims: seq<Claim>, contentions: seq<Contention>,
                                          claimed: set<nat>)
    requires CommitIsMeaningful(epe)
    ensures var r := Establish(epe, a, claims, contentions, claimed);
            && Kept(epe, r.epe) && CommitIsMeaningful(r.epe)
            && (r.outcome.Done? && epe.statusActive ==> r.epe.committedAt.Some?)
  {
    if epe.statusActive {
      PerformKeeps(epe, a, claims, claimed);
      var (performed, _, outcome) := Perform(epe, a, claims, claimed);
      if outcome.Done? {
        CreateContentionsKeeps(performed, a, contentions);
        var (created, _, outcome) := CreateContentions(performed, a, contentions);
        if outcome.Done? {
          FinishKeeps(created, a);
        }
      }
    }
  }

  // ---- What an attempt stamps ------------------------------------------------------------------------

  predicate SomethingUnassociated(records: seq<Record>) {
    exists k :: 0 <= k < |records| && records[k].active && records[k].ratingScope && records[k].ratingIssue
                && records[k].associatedAt.None?
  }

  predicate Stampable(r: Record) { r.active && r.ratingIssue }

  /** Only `associatedAt` changes: on all active records contesting a rating issue, or on none. */
  predicate Stamped(before: seq<Record>, after: seq<Record>, now: nat, stamps: bool) {
    && |after| == |before|
    && forall k :: 0 <= k < |before| ==>
         after[k] == if stamps && Stampable(before[k]) then before[k].(associatedAt := Some(now)) else before[k]
  }

  /** The step stamps when something is unassociated and the call goes through, and fails when it does not. */
  lemma {:induction false} AssociationStamps(epe: Epe, a: Attempt)
    ensures var (after, outcome) := AssociateRatingIssues(epe, a);
            && Stamped(epe.records, after.records, a.now, SomethingUnassociated(epe.records) && a.associated)
            && (outcome.Done? <==> SomethingUnassociated(epe.records) ==> a.associated)
  {
    if !SomethingUnassociated(epe.records) {
      assert forall k :: 0 <= k < |epe.records| ==> !Unassociated(epe.records[k]);
    } else {
      var k :| 0 <= k < |epe.records| && epe.records[k].active && epe.records[k].ratingScope && epe.records[k].ratingIssue
               && epe.records[k].associatedAt.None?;
      assert Unassociated(epe.records[k]);
    }
  }

  lemma {:induction false} FinishStamps(epe: Epe, a: Attempt)
    ensures var (after, outcome) := Finish(epe, a);
            && Stamped(epe.records, after.records, a.now, SomethingUnassociated(epe.records) && a.associated)
            && (outcome.Done? && SomethingUnassociated(epe.records) ==> a.associated)
            && after.committedAt == (if outcome.Done? && epe.committedAt.None? then Some(a.now) else epe.committedAt)
  {
    AssociationStamps(epe, a);
    FinishAfterAssociation(epe, a);
  }

  lemma {:induction false} CreateContentionsFills(epe: Epe, a: Attempt, contentions: seq<Contention>)
    requires epe.claim.Some?
    ensures var (after, _, outcome) := CreateContentions(epe, a, contentions);
            && FilledOnly(epe.records, after.records) && after == epe.(records := after.records)
  {
    var (after, _, _) := CreateContentions(epe, a, contentions);
    if Ready(epe.records) != [] && a.contentionReply.Answered? {
      var Answered(list, handled) := a.contentionReply;
      var seen := if handled < |list| then list[..handled] else list;
      MatchAllOnlyFillsWaiting(epe.records, Known(epe.records), epe.claim, seen);
      assert forall k :: 0 <= k < |epe.records| ==>
        Matched(epe.records[k], after.records[k], Known(epe.records), epe.claim, seen);
    }
  }

  /** Contention ids are filled in on active records without one, and nothing else changes. */
  predicate FilledOnly(before: seq<Record>, after: seq<Record>) {
    && |after| == |before|
    && forall k :: 0 <= k < |before| ==>
         && after[k] == before[k].(contention := after[k].contention)
         && (after[k].contention != before[k].contention ==>
               before[k].active && before[k].contention.None? && after[k].contention.Some?)
  }

  /** Of a record only the contention id, if it is active without one, and the association time, if it is active and
      contests a rating issue, may change. */
  predicate RecordTouched(before: Record, after: Record, now: nat) {
    && after == before.(contention := after.contention, associatedAt := after.associatedAt)
    && (after.contention != before.contention ==> before.active && before.contention.None?)
    && (after.associatedAt != before.associatedAt ==>
          before.active && before.ratingIssue && after.associatedAt == Some(now))
  }

  /** The letter and the tracked item come from their calls, for an informal conference only, and the item after the
      letter. */
  predicate LettersWritten(before: Epe, after: Epe, a: Attempt) {
    && (after.letter != before.letter ==> before.informalConference && before.letter.None? && after.letter == a.letter)
    && (after.item != before.item ==>
          before.informalConference && before.item.None? && after.item == a.item && after.letter.Some?)
  }

  lemma {:induction false} FinishWritesLetters(epe: Epe, a: Attempt)
    ensures LettersWritten(epe, Finish(epe, a).0, a)
    ensures Finish(epe, a).1.Done? && epe.informalConference ==> Finish(epe, a).0.letter.Some? && Finish(epe, a).0.item.Some?
    ensures Finish(epe, a).1.Failed? ==> Finish(epe, a).1 == Failed(Interrupted)
  {
  }

  lemma {:induction false} EstablishWritesLetters(epe: Epe, a: Attempt, claims: seq<Claim>, contentions: seq<Contention>,
                                                  claimed: set<nat>)
    ensures LettersWritten(epe, Establish(epe, a, claims, contentions, claimed).epe, a)
  {
    if epe.statusActive {
      var (performed, _, outcome) := Perform(epe, a, claims, claimed);
      PerformKeeps(epe, a, claims, claimed);
      if outcome.Done? {
        CreateContentionsFills(performed, a, contentions);
        FinishWritesLetters(CreateContentions(performed, a, contentions).0, a);
      }
    }
  }

  /** The request for a claim is made for a record without one that finds none to recover. */
  predicate AsksForClaim(epe: Epe, a: Attempt, claims: seq<Claim>, claimed: set<nat>) {
    && epe.statusActive && epe.claim.None?
    && (a.job.lastSubmittedAt == a.job.submittedAt || MatchingEndProduct(epe, a.listing, claims, claimed).None?)
  }

  /** Which failure an attempt ends in. */
  lemma {:induction false} EstablishFailsIff(epe: Epe, a: Attempt, claims: seq<Claim>, contentions: seq<Contention>,
                                             claimed: set<nat>)
    ensures var r := Establish(epe, a, claims, contentions, claimed);
            && (r.outcome == Failed(InvalidEndProduct) <==> AsksForClaim(epe, a, claims, claimed) && !a.valid)
            && (r.outcome == Failed(ClaimRefused) <==>
                  AsksForClaim(epe, a, claims, claimed) && a.valid && a.claimReply.Refused?)
            && (r.outcome == Failed(ContentionCreationFailed) ==>
                  && a.contentionReply.Answered? && |a.contentionReply.list| <= a.contentionReply.handled
                  && exists k :: 0 <= k < |r.epe.records| && r.epe.records[k].active && r.epe.records[k].contention.None?)
            && (!epe.statusActive ==> r == Result(epe, claims, contentions, Done))
  {
    var (performed, _, outcome) := Perform(epe, a, claims, claimed);
    if epe.statusActive && outcome.Done? {
      ContentionsFail(performed, a, contentions);
      FinishWritesLetters(CreateContentions(performed, a, contentions).0, a);
    }
  }

  lemma {:induction false} ContentionsFail(epe: Epe, a: Attempt, contentions: seq<Contention>)
    requires epe.claim.Some?
    ensures var (after, store, outcome) := CreateContentions(epe, a, contentions);
            && (outcome == Failed(ContentionCreationFailed) ==>
                  && a.contentionReply.Answered? && |a.contentionReply.list| <= a.contentionReply.handled
                  && exists k :: 0 <= k < |after.records| && after.records[k].active && after.records[k].contention.None?)
            && outcome in {Done, Failed(Interrupted), Failed(ContentionCreationFailed)}
  {
    var after := CreateContentions(epe, a, contentions).0;
    ReadyIsEmpty(after.records);
  }

  /** The contentions stored by an attempt: a request for each active record without one, unless it is rejected. */
  lemma {:induction false} ContentionsRequested(epe: Epe, a: Attempt, contentions: seq<Contention>, text: Option<string>)
    requires epe.claim.Some?
    ensures var store := CreateContentions(epe, a, contentions).1;
            && contentions <= store
            && multiset(store[|contentions|..])[Contention(epe.claim.value, text)] ==
                 (if a.contentionReply.Rejected? then 0
                  else |WaitingAt(epe.records, text)|)
            && forall c :: c in store[|contentions|..] ==> c.claim == epe.claim.value
  {
    var store, ready := CreateContentions(epe, a, contentions).1, Ready(epe.records);
    RequestedCount(epe.claim.value, epe.records, text);
    if ready == [] || a.contentionReply.Rejected? {
      assert store[|contentions|..] == [];
      assert ready == [] ==> Requested(epe.claim.value, ready) == [];
    } else {
      assert store[|contentions|..] == Requested(epe.claim.value, ready);
    }
  }

  /** What one attempt changes on the issues. */
  lemma {:induction false} EstablishStamps(epe: Epe, a: Attempt, claims: seq<Claim>, contentions: seq<Contention>,
                                           claimed: set<nat>)
    ensures var r := Establish(epe, a, claims, contentions, claimed);
            && |r.epe.records| == |epe.records|
            && (forall k :: 0 <= k < |epe.records| ==> RecordTouched(epe.records[k], r.epe.records[k], a.now))
            && (r.outcome.Done? && epe.statusActive && SomethingUnassociated(epe.records) ==>
                  forall k :: 0 <= k < |epe.records| && epe.records[k].active && epe.records[k].ratingIssue ==>
                    r.epe.records[k].associatedAt == Some(a.now))
            && (!SomethingUnassociated(epe.records) ==>
                  forall k :: 0 <= k < |epe.records| ==> r.epe.records[k].associatedAt == epe.records[k].associatedAt)
  {
    if epe.statusActive {
      var (performed, _, outcome) := Perform(epe, a, claims, claimed);
      PerformKeeps(epe, a, claims, claimed);
      if outcome.Done? {
        CreateContentionsFills(performed, a, contentions);
        var (created, _, outcome) := CreateContentions(performed, a, contentions);
        FilledKeepsUnassociated(epe.records, created.records);
        if outcome.Done? {
          FinishStamps(created, a);
          FilledThenStamped(epe.records, created.records, Finish(created, a).0.records, a.now,
                            SomethingUnassociated(epe.records) && a.associated);
        }
      }
    }
  }

  /** The times an attempt writes: of the claim taken or made, and of the first commit. */
  lemma {:induction false} EstablishTimes(epe: Epe, a: Attempt, claims: seq<Claim>, contentions: seq<Contention>,
                                          claimed: set<nat>)
    ensures var r := Establish(epe, a, claims, contentions, claimed);
            && r.epe.establishedAt == (if r.epe.claim != epe.claim then Some(a.now) else epe.establishedAt)
            && r.epe.committedAt ==
                 (if r.outcome.Done? && epe.statusActive && epe.committedAt.None? then Some(a.now) else epe.committedAt)
  {
    if epe.statusActive {
      var (performed, _, outcome) := Perform(epe, a, claims, claimed);
      PerformKeeps(epe, a, claims, claimed);
      if outcome.Done? {
        CreateContentionsFills(performed, a, contentions);
        var created := CreateContentions(performed, a, contentions).0;
        FinishStamps(created, a);
        FinishKeepsClaim(created, a);
        FinishKeepsEstablishedAt(created, a);
      }
    }
  }

  lemma {:induction false} FinishKeepsEstablishedAt(epe: Epe, a: Attempt)
    ensures Finish(epe, a).0.establishedAt == epe.establishedAt
  {
  }

  lemma {:induction false} FilledKeepsUnassociated(before: seq<Record>, after: seq<Record>)
    requires FilledOnly(before, after)
    ensures SomethingUnassociated(before) <==> SomethingUnassociated(after)
  {
    if SomethingUnassociated(before) {
      var k :| 0 <= k < |before| && before[k].active && before[k].ratingScope && before[k].ratingIssue
               && before[k].associatedAt.None?;
      assert after[k].active;
    }
    if SomethingUnassociated(after) {
      var k :| 0 <= k < |after| && after[k].active && after[k].ratingScope && after[k].ratingIssue
               && after[k].associatedAt.None?;
      assert before[k].active;
    }
  }

  lemma {:induction false} FilledThenStamped(before: seq<Record>, middle: seq<Record>, after: seq<Record>, now: nat,
                                             stamps: bool)
    requires FilledOnly(before, middle) && Stamped(middle, after, now, stamps)
    ensures |after| == |before|
    ensures forall k :: 0 <= k < |before| ==>
      && RecordTouched(before[k], after[k], now)
      && after[k].associatedAt == if stamps && before[k].active && before[k].ratingIssue then Some(now)
                                  else before[k].associatedAt
  {
  }

  lemma {:induction false} StepKeepsEpes(s: System, ev: Event)
    requires forall i :: 0 <= i < |s.epes| ==> CommitIsMeaningful(s.epes[i])
    ensures |Step(s, ev).epes| == |s.epes|
    ensures forall i :: 0 <= i < |s.epes| ==> Kept(s.epes[i], Step(s, ev).epes[i]) && CommitIsMeaningful(Step(s, ev).epes[i])
  {
    if ev.Attempted? && ev.i < |s.epes| {
      EstablishKeeps(s.epes[ev.i], ev.a, s.claims, s.contentions, Held(s.epes));
    }
  }

  predicate AllMeaningful(s: System) {
    forall i :: 0 <= i < |s.epes| ==> CommitIsMeaningful(s.epes[i])
  }

  predicate AllKept(s: System, s': System) {
    |s'.epes| == |s.epes| && forall i :: 0 <= i < |s.epes| ==> Kept(s.epes[i], s'.epes[i])
  }

  lemma {:induction false} RunKeepsEpes(s: System, events: seq<Event>)
    requires AllMeaningful(s)
    ensures AllMeaningful(Run(s, events)) && AllKept(s, Run(s, events))
  {
    if events != [] {
      var before := Run(s, events[..|events| - 1]);
      RunKeepsEpes(s, events[..|events| - 1]);
      StepKeepsEpes(before, events[|events| - 1]);
      forall i | 0 <= i < |s.epes|
        ensures Kept(s.epes[i], Run(s, events).epes[i])
      {
        KeptTransitive(s.epes[i], before.epes[i], Run(s, events).epes[i]);
      }
    }
  }

  /** In every reachable state a committed end product is fully established. */
  lemma {:induction false} CommitAlwaysMeaningful(s: System, events: seq<Event>)
    requires Initial(s)
    ensures AllMeaningful(Run(s, events))
  {
    RunKeepsEpes(s, events);
  }

  /** Between any two points of a run nothing that was set has changed. */
  lemma {:induction false} SetOnce(s: System, events: seq<Event>, more: seq<Event>)
    requires Initial(s)
    ensures AllKept(Run(s, events), Run(s, events + more))
  {
    CommitAlwaysMeaningful(s, events);
    RunKeepsEpes(Run(s, events), more);
    AfterConcat(Step, s, events, more);
  }

  lemma {:induction false} KeptTransitive(e1: Epe, e2: Epe, e3: Epe)
    requires Kept(e1, e2) && Kept(e2, e3)
    ensures Kept(e1, e3)
  {
  }

  // ---- Contention ids over a run ---------------------------------------------------------------------

  /** Each id on the record's issues names a stored contention of its own claim and text, used once. */
  ghost predicate ContentionsSound(e: Epe, contentions: seq<Contention>) {
    && DistinctIds(e.records)
    && forall k :: 0 <= k < |e.records| && e.records[k].contention.Some? ==>
         && e.claim.Some? && e.records[k].contention.value < |contentions|
         && contentions[e.records[k].contention.value] == Contention(e.claim.value, e.records[k].text)
  }

  /** The answer names each contention once and as stored; it may miss some and show other claims'. */
  ghost predicate Accurate(list: seq<Returned>, contentions: seq<Contention>) {
    && DistinctReturned(list)
    && forall c :: c in list ==> c.id < |contentions| && contentions[c.id] == Contention(c.claim, c.text)
  }

  lemma {:induction false} SameIdsStaySound(before: Epe, after: Epe, contentions: seq<Contention>,
                                            more: seq<Contention>)
    requires ContentionsSound(before, contentions) && contentions <= more
    requires |after.records| == |before.records|
    requires before.claim.Some? ==> after.claim == before.claim
    requires forall k :: 0 <= k < |before.records| ==>
      after.records[k].contention == before.records[k].contention && after.records[k].text == before.records[k].text
    ensures ContentionsSound(after, more)
  {
  }

  lemma {:induction false} CreateContentionsStaysSound(epe: Epe, a: Attempt, contentions: seq<Contention>)
    requires epe.claim.Some? && ContentionsSound(epe, contentions)
    requires a.contentionReply.Answered? ==>
      Accurate(a.contentionReply.list, CreateContentions(epe, a, contentions).1)
    ensures var (after, store, _) := CreateContentions(epe, a, contentions);
            contentions <= store && ContentionsSound(after, store)
  {
    var (after, store, _) := CreateContentions(epe, a, contentions);
    if Ready(epe.records) != [] && a.contentionReply.Answered? {
      var Answered(list, handled) := a.contentionReply;
      var seen := if handled < |list| then list[..handled] else list;
      MatchAllKeepsIdsDistinct(epe.records, epe.claim, seen);
      MatchAllOnlyFillsWaiting(epe.records, Known(epe.records), epe.claim, seen);
      assert forall k :: 0 <= k < |epe.records| ==>
        Matched(epe.records[k], after.records[k], Known(epe.records), epe.claim, seen);
      assert forall c :: c in seen ==> c in list;
    } else {
      SameIdsStaySound(epe, epe, contentions, store);
    }
  }

  lemma {:induction false} FinishKeepsIds(epe: Epe, a: Attempt)
    ensures var (after, _) := Finish(epe, a);
            && |after.records| == |epe.records| && after.claim == epe.claim
            && forall k :: 0 <= k < |epe.records| ==>
                 after.records[k].contention == epe.records[k].contention && after.records[k].text == epe.records[k].text
  {
    AssociateKeeps(epe, a);
    FinishAfterAssociation(epe, a);
  }

  lemma {:induction false} FinishAfterAssociation(epe: Epe, a: Attempt)
    ensures Finish(epe, a).0.records == AssociateRatingIssues(epe, a).0.records
    ensures Finish(epe, a).0.claim == epe.claim
  {
  }

  /** The contention list of this event, if its attempt gets one, is accurate. */
  ghost predicate AnswerAccurate(s: System, ev: Event) {
    ev.Attempted? && ev.i < |s.epes| && ev.a.contentionReply.Answered? ==>
      Accurate(ev.a.contentionReply.list, AttemptResult(s, ev.i, ev.a).contentions)
  }

  lemma {:induction false} EstablishStaysSound(epe: Epe, a: Attempt, claims: seq<Claim>, contentions: seq<Contention>,
                                               claimed: set<nat>)
    requires ContentionsSound(epe, contentions)
    requires a.contentionReply.Answered? ==>
      Accurate(a.contentionReply.list, Establish(epe, a, claims, contentions, claimed).contentions)
    ensures var r := Establish(epe, a, claims, contentions, claimed);
            contentions <= r.contentions && ContentionsSound(r.epe, r.contentions)
  {
    if epe.statusActive {
      var (performed, _, outcome) := Perform(epe, a, claims, claimed);
      PerformKeeps(epe, a, claims, claimed);
      SameIdsStaySound(epe, performed, contentions, contentions);
      if outcome.Done? {
        CreateContentionsStaysSound(performed, a, contentions);
        var (created, store, outcome) := CreateContentions(performed, a, contentions);
        if outcome.Done? {
          FinishKeepsIds(created, a);
          SameIdsStaySound(created, Finish(created, a).0, store, store);
        }
      }
    }
  }

  lemma {:induction false} AttemptStaysSound(s: System, i: nat, a: Attempt)
    requires i < |s.epes| && ContentionsSound(s.epes[i], s.contentions) && AnswerAccurate(s, Attempted(i, a))
    ensures var r := AttemptResult(s, i, a);
            s.contentions <= r.contentions && ContentionsSound(r.epe, r.contentions)
  {
    EstablishStaysSound(s.epes[i], a, s.claims, s.contentions, Held(s.epes));
  }

  ghost predicate AllSound(s: System) {
    forall i :: 0 <= i < |s.epes| ==> ContentionsSound(s.epes[i], s.contentions)
  }

  lemma {:induction false} StepStaysSound(s: System, ev: Event)
    requires AllSound(s) && AnswerAccurate(s, ev)
    ensures AllSound(Step(s, ev))
  {
    var s' := Step(s, ev);
    if ev.Attempted? && ev.i < |s.epes| {
      AttemptStaysSound(s, ev.i, ev.a);
    }
    forall i | 0 <= i < |s.epes| && !(ev.Attempted? && ev.i == i)
      ensures ContentionsSound(s'.epes[i], s'.contentions)
    {
      assert s.contentions <= s'.contentions;
      SameIdsStaySound(s.epes[i], s'.epes[i], s.contentions, s'.contentions);
    }
  }

  ghost predicate AccuratelyAnswered(s: System, events: seq<Event>) {
    events != [] ==>
      var n := |events| - 1;
      AccuratelyAnswered(s, events[..n]) && AnswerAccurate(Run(s, events[..n]), events[n])
  }

  lemma {:induction false} RunStaysSound(s: System, events: seq<Event>)
    requires Initial(s) && AccuratelyAnswered(s, events)
    ensures AllSound(Run(s, events))
  {
    if events != [] {
      RunStaysSound(s, events[..|events| - 1]);
      StepStaysSound(Run(s, events[..|events| - 1]), events[|events| - 1]);
    }
  }

  /** Over every run, two different issues, on one end product or on two, never share a contention. */
  lemma {:induction false} NoContentionIsShared(s: System, events: seq<Event>, i: nat, k: nat, j: nat, l: nat)
    requires Initial(s) && AccuratelyAnswered(s, events)
    requires var end := Run(s, events);
             && i < |end.epes| && k < |end.epes[i].records| && j < |end.epes| && l < |end.epes[j].records|
             && (i, k) != (j, l) && end.epes[i].records[k].contention.Some?
    ensures Run(s, events).epes[i].records[k].contention != Run(s, events).epes[j].records[l].contention
  {
    var end := Run(s, events);
    RunStaysSound(s, events);
    NoClaimIsShared(s, events);
    assert ContentionsSound(end.epes[i], end.contentions) && ContentionsSound(end.epes[j], end.contentions);
    if i == j {
      assert DistinctIds(end.epes[i].records);
    } else {
      assert end.epes[i].claim != end.epes[j].claim;
    }
  }

  // ---- Retrying works ----------------------------------------------------------------------------------

  /** No call of the attempt is refused, lost or left unanswered, and contentions are answered honestly, if any
      are asked for. */
  ghost predicate NothingFails(epe: Epe, a: Attempt, claims: seq<Claim>, contentions: seq<Contention>, claimed: set<nat>) {
    && a.valid && a.claimReply.Created? && a.associated && a.letter.Some? && a.item.Some?
    && var performed := Perform(epe, a, claims, claimed).0;
       performed.claim.Some? && Ready(performed.records) != [] ==>
         && a.contentionReply.Answered? && |a.contentionReply.list| <= a.contentionReply.handled
         && Honest(a.contentionReply.list, performed.claim.value,
                   contentions + Requested(performed.claim.value, Ready(performed.records)))
  }

  /** Then the claim is there, every contention is created and matched, and the ids stay sound. */
  lemma {:induction false} UndisturbedContentions(epe: Epe, a: Attempt, claims: seq<Claim>, contentions: seq<Contention>,
                                                  claimed: set<nat>)
    requires ContentionsSound(epe, contentions) && NothingFails(epe, a, claims, contentions, claimed)
    ensures var (performed, _, outcome) := Perform(epe, a, claims, claimed);
            && outcome == Done && performed.claim.Some?
            && CreateContentions(performed, a, contentions).2 == Done
            && contentions <= CreateContentions(performed, a, contentions).1
            && ContentionsSound(CreateContentions(performed, a, contentions).0, CreateContentions(performed, a, contentions).1)
  {
    var performed := Perform(epe, a, claims, claimed).0;
    PerformKeeps(epe, a, claims, claimed);
    SameIdsStaySound(epe, performed, contentions, contentions);
    if Ready(performed.records) != [] {
      forall id | id in Known(performed.records)
        ensures id < |contentions|
      {
        var k :| 0 <= k < |performed.records| && performed.records[k].contention == Some(id);
        assert epe.records[k].contention == Some(id);
      }
      HonestAnswerSucceeds(performed, a, contentions);
      CreateContentionsStaysSound(performed, a, contentions);
    }
  }

  lemma {:induction false} UndisturbedEstablish(epe: Epe, a: Attempt, claims: seq<Claim>, contentions: seq<Contention>,
                                                claimed: set<nat>)
    requires ContentionsSound(epe, contentions) && (epe.statusActive ==> NothingFails(epe, a, claims, contentions, claimed))
    ensures var r := Establish(epe, a, claims, contentions, claimed);
            r.outcome == Done && contentions <= r.contentions && ContentionsSound(r.epe, r.contentions)
  {
    if epe.statusActive {
      UndisturbedContentions(epe, a, claims, contentions, claimed);
      var performed := Perform(epe, a, claims, claimed).0;
      var (created, store, _) := CreateContentions(performed, a, contentions);
      NothingStopsFinish(created, a);
      FinishKeepsIds(created, a);
      SameIdsStaySound(created, Finish(created, a).0, store, store);
    }
  }

  /** From any reachable state, an attempt in which nothing fails ends with the record committed. */
  lemma {:induction false} UndisturbedAttemptCommits(s: System, events: seq<Event>, i: nat, a: Attempt)
    requires Initial(s) && AccuratelyAnswered(s, events)
    requires i < |Run(s, events).epes| && Run(s, events).epes[i].statusActive
    requires var end := Run(s, events); NothingFails(end.epes[i], a, end.claims, end.contentions, Held(end.epes))
    ensures var r := AttemptResult(Run(s, events), i, a);
            r.outcome == Done && r.epe.committedAt.Some? && FullyEstablished(r.epe)
  {
    var end := Run(s, events);
    RunStaysSound(s, events);
    CommitAlwaysMeaningful(s, events);
    UndisturbedEstablish(end.epes[i], a, end.claims, end.contentions, Held(end.epes));
    EstablishKeeps(end.epes[i], a, end.claims, end.contentions, Held(end.epes));
  }

  lemma {:induction false} NothingStopsFinish(epe: Epe, a: Attempt)
    requires a.associated && a.letter.Some? && a.item.Some?
    ensures Finish(epe, a).1 == Done
  {
  }

  // ---- Claims taken by one attempt ---------------------------------------------------------------------

  /** A claim that was not held before is a new one or one that nobody holds. */
  predicate TakesFree(epe: Epe, claims: seq<Claim>, claimed: set<nat>, r: Result) {
    && claims <= r.claims
    && (r.epe.claim == epe.claim
        || (epe.claim.None? && r.epe.claim.Some? && r.epe.claim.value < |r.claims|
            && (r.epe.claim.value !in claimed || r.epe.claim.value == |claims|)))
  }

  lemma {:induction false} EstablishTakesFree(epe: Epe, a: Attempt, claims: seq<Claim>, contentions: seq<Contention>,
                                              claimed: set<nat>)
    ensures TakesFree(epe, claims, claimed, Establish(epe, a, claims, contentions, claimed))
  {
    if epe.statusActive {
      EstablishClaim(epe, a, claims, contentions, claimed);
    }
  }
}
