/** One end product establishment: what each step of `establish!` does to the local record and to the
    remote claim system, with a failure allowed at every external call. */
module EndProductEstablishments {
  import opened Prelude

  // ---- The remote claim system: append-only, a claim or contention is known by its position ----

  /** What `matches_end_product?` compares, together with the veteran whose end products are listed. */
  datatype Key = Key(veteran: string, code: string, claimDate: nat, payee: string)

  datatype Claim = Claim(key: Key, active: bool)

  datatype Contention = Contention(claim: nat, text: Option<string>)

  // ---- Local records ---------------------------------------------------------------------------

  /** A request issue or effectuation, known by `id`; `active` is the scope of the same name, `ratingScope` the scope
      `rating`, and `ratingIssue` says whether it contests a rating issue. */
  datatype Record = Record(
    id: nat, text: Option<string>, active: bool, contention: Option<nat>,
    ratingScope: bool, ratingIssue: bool, associatedAt: Option<nat>)

  datatype Epe = Epe(
    key: Key, claim: Option<nat>, establishedAt: Option<nat>, committedAt: Option<nat>,
    letter: Option<nat>, item: Option<nat>, statusActive: bool, informalConference: bool,
    records: seq<Record>)

  datatype Error = InvalidEndProduct | ClaimRefused | ContentionCreationFailed | Interrupted

  datatype Outcome = Done | Failed(error: Error)

  // ---- What the outside world does during one attempt ------------------------------------------

  /** Submission times of the job behind the attempt. */
  datatype Job = Job(submittedAt: nat, lastSubmittedAt: nat)

  predicate PreviouslyAttempted(job: Job) { job.lastSubmittedAt != job.submittedAt }

  /** `Lost`: the claim was created but the attempt died before the local record was saved. */
  datatype ClaimReply = Refused | Lost | Created

  datatype Returned = Returned(id: nat, claim: nat, text: Option<string>)

  /** `Unanswered`: the contentions were created but no answer came. `Answered` carries the list sent
      back and how many of its entries were handled before the attempt died, if it did. */
  datatype ContentionReply = Rejected | Unanswered | Answered(list: seq<Returned>, handled: nat)

  datatype Attempt = Attempt(
    now: nat, job: Job, listing: seq<nat>, valid: bool, claimReply: ClaimReply,
    contentionReply: ContentionReply, associated: bool, letter: Option<nat>, item: Option<nat>)

  // ---- perform! --------------------------------------------------------------------------------

  predicate MatchesEndProduct(epe: Epe, id: nat, claims: seq<Claim>, claimed: set<nat>)
    requires id < |claims|
  {
    epe.claim == Some(id) || (claims[id].active && claims[id].key == epe.key && id !in claimed)
  }

  /** The first listed end product that matches. */
  function MatchingEndProduct(epe: Epe, listing: seq<nat>, claims: seq<Claim>, claimed: set<nat>): (r: Option<nat>)
    ensures r.Some? ==> r.value in listing && r.value < |claims| && MatchesEndProduct(epe, r.value, claims, claimed)
    ensures r.None? ==> forall id :: id in listing && id < |claims| ==> !MatchesEndProduct(epe, id, claims, claimed)
  {
    if listing == [] then None
    else if listing[0] < |claims| && MatchesEndProduct(epe, listing[0], claims, claimed) then Some(listing[0])
    else MatchingEndProduct(epe, listing[1..], claims, claimed)
  }

  /** Nothing that matches is listed before the end product taken. */
  lemma {:induction false} FirstMatchIsTaken(epe: Epe, listing: seq<nat>, claims: seq<Claim>, claimed: set<nat>, k: nat)
    requires k < |listing| && listing[k] < |claims| && MatchesEndProduct(epe, listing[k], claims, claimed)
    requires forall j :: 0 <= j < k && listing[j] < |claims| ==> !MatchesEndProduct(epe, listing[j], claims, claimed)
    ensures MatchingEndProduct(epe, listing, claims, claimed) == Some(listing[k])
  {
    if k > 0 {
      FirstMatchIsTaken(epe, listing[1..], claims, claimed, k - 1);
    }
  }

  function Recovered(epe: Epe, a: Attempt, claims: seq<Claim>, claimed: set<nat>): Option<nat> {
    if PreviouslyAttempted(a.job) then MatchingEndProduct(epe, a.listing, claims, claimed) else None
  }

  function Perform(epe: Epe, a: Attempt, claims: seq<Claim>, claimed: set<nat>): (Epe, seq<Claim>, Outcome) {
    if epe.claim.Some? then (epe, claims, Done)
    else if Recovered(epe, a, claims, claimed).Some? then
      (epe.(claim := Recovered(epe, a, claims, claimed), establishedAt := Some(a.now)), claims, Done)
    else if !a.valid then (epe, claims, Failed(InvalidEndProduct))
    else match a.claimReply
      case Refused => (epe, claims, Failed(ClaimRefused))
      case Lost => (epe, claims + [Claim(epe.key, true)], Failed(Interrupted))
      case Created => (epe.(claim := Some(|claims|), establishedAt := Some(a.now)), claims + [Claim(epe.key, true)], Done)
  }

  // ---- create_contentions! -----------------------------------------------------------------------

  predicate Waiting(r: Record) { r.active && r.contention.None? }

  function Ready(records: seq<Record>): seq<Record> {
    if records == [] then []
    else (if Waiting(records[0]) then [records[0]] else []) + Ready(records[1..])
  }

  function Known(records: seq<Record>): (ids: set<nat>)
    ensures forall id :: id in ids <==> exists i :: 0 <= i < |records| && records[i].contention == Some(id)
  {
    set i | 0 <= i < |records| && records[i].contention.Some? :: records[i].contention.value
  }

  /** The index of the first waiting record with this text, or the length if there is none. */
  function FirstWaiting(records: seq<Record>, text: Option<string>): (k: nat)
    ensures k <= |records|
    ensures k < |records| ==> Waiting(records[k]) && records[k].text == text
    ensures forall i :: 0 <= i < k ==> !(Waiting(records[i]) && records[i].text == text)
  {
    if records == [] || (Waiting(records[0]) && records[0].text == text) then 0
    else 1 + FirstWaiting(records[1..], text)
  }

  function MatchOne(records: seq<Record>, known: set<nat>, claim: Option<nat>, c: Returned): seq<Record> {
    var k := FirstWaiting(records, c.text);
    if c.id in known || Some(c.claim) != claim || k == |records| then records
    else records[k := records[k].(contention := Some(c.id))]
  }

  /** The greedy match of a list of returned contentions, in order. */
  function MatchAll(records: seq<Record>, known: set<nat>, claim: Option<nat>, list: seq<Returned>): (r: seq<Record>)
    ensures |r| == |records|
  {
    if list == [] then records
    else
      var n := |list| - 1;
      MatchOne(MatchAll(records, known, claim, list[..n]), known, claim, list[n])
  }

  function Requested(claim: nat, ready: seq<Record>): seq<Contention> {
    seq(|ready|, i requires 0 <= i < |ready| => Contention(claim, ready[i].text))
  }

  function CreateContentions(epe: Epe, a: Attempt, contentions: seq<Contention>): (Epe, seq<Contention>, Outcome)
    requires epe.claim.Some?
  {
    var ready := Ready(epe.records);
    if ready == [] then (epe, contentions, Done)
    else if a.contentionReply.Rejected? then (epe, contentions, Failed(Interrupted))
    else
      var created := contentions + Requested(epe.claim.value, ready);
      if a.contentionReply.Unanswered? then (epe, created, Failed(Interrupted))
      else
        var Answered(list, handled) := a.contentionReply;
        var seen := if handled < |list| then list[..handled] else list;
        var matched := epe.(records := MatchAll(epe.records, Known(epe.records), epe.claim, seen));
        (matched, created,
         if handled < |list| then Failed(Interrupted)
         else if Ready(matched.records) != [] then Failed(ContentionCreationFailed)
         else Done)
  }

  // ---- The remaining steps -----------------------------------------------------------------------

  predicate Unassociated(r: Record) { r.active && r.ratingScope && r.ratingIssue && r.associatedAt.None? }

  function AssociateAll(records: seq<Record>, now: nat): (r: seq<Record>)
    ensures |r| == |records|
  {
    seq(|records|, i requires 0 <= i < |records| =>
      if records[i].active && records[i].ratingIssue then records[i].(associatedAt := Some(now)) else records[i])
  }

  function AssociateRatingIssues(epe: Epe, a: Attempt): (Epe, Outcome) {
    if forall i :: 0 <= i < |epe.records| ==> !Unassociated(epe.records[i]) then (epe, Done)
    else if !a.associated then (epe, Failed(Interrupted))
    else (epe.(records := AssociateAll(epe.records, a.now)), Done)
  }

  function GenerateLetter(epe: Epe, a: Attempt): (Epe, Outcome) {
    if epe.letter.Some? then (epe, Done)
    else if a.letter.None? then (epe, Failed(Interrupted))
    else (epe.(letter := a.letter), Done)
  }

  function GenerateItem(epe: Epe, a: Attempt): (Epe, Outcome) {
    if epe.item.Some? then (epe, Done)
    else if a.item.None? then (epe, Failed(Interrupted))
    else (epe.(item := a.item), Done)
  }

  function Commit(epe: Epe, a: Attempt): Epe {
    if epe.committedAt.Some? then epe else epe.(committedAt := Some(a.now))
  }

  /** The steps after the contentions, up to the commit. */
  function Finish(epe: Epe, a: Attempt): (Epe, Outcome) {
    var (epe, outcome) := AssociateRatingIssues(epe, a);
    if outcome.Failed? then (epe, outcome)
    else if !epe.informalConference then (Commit(epe, a), Done)
    else
      var (epe, outcome) := GenerateLetter(epe, a);
      if outcome.Failed? then (epe, outcome)
      else
        var (epe, outcome) := GenerateItem(epe, a);
        if outcome.Failed? then (epe, outcome) else (Commit(epe, a), Done)
  }

  datatype Result = Result(epe: Epe, claims: seq<Claim>, contentions: seq<Contention>, outcome: Outcome)

  function Establish(epe: Epe, a: Attempt, claims: seq<Claim>, contentions: seq<Contention>, claimed: set<nat>): Result {
    if !epe.statusActive then Result(epe, claims, contentions, Done)
    else
      var (epe, claims, outcome) := Perform(epe, a, claims, claimed);
      if outcome.Failed? then Result(epe, claims, contentions, outcome)
      else
        var (epe, contentions, outcome) := CreateContentions(epe, a, contentions);
        if outcome.Failed? then Result(epe, claims, contentions, outcome)
        else
          var (epe, outcome) := Finish(epe, a);
          Result(epe, claims, contentions, outcome)
  }

  // ---- The same steps on objects -----------------------------------------------------------------

  class ClaimSystem {
    var claims: seq<Claim>
    var contentions: seq<Contention>
  }

  class ContentionRecord {
    const id: nat
    const text: Option<string>
    const ratingScope: bool
    const ratingIssue: bool
    var active: bool
    var contentionReferenceId: Option<nat>
    var ratingIssueAssociatedAt: Option<nat>

    function Value(): Record
      reads this
    {
      Record(id, text, active, contentionReferenceId, ratingScope, ratingIssue, ratingIssueAssociatedAt)
    }
  }

  function Values(records: seq<ContentionRecord>): (r: seq<Record>)
    reads records
    ensures |r| == |records|
    ensures forall i :: 0 <= i < |r| ==> r[i] == records[i].Value()
  {
    if records == [] then [] else [records[0].Value()] + Values(records[1..])
  }

  /** Claim ids held by any record of the table, which `find_by(reference_id:)` looks up. */
  function Claimed(table: set<EndProductEstablishment>): set<nat>
    reads table
  {
    set e | e in table && e.referenceId.Some? :: e.referenceId.value
  }

  class EndProductEstablishment {
    const key: Key
    const informalConference: bool
    const records: seq<ContentionRecord>
    var referenceId: Option<nat>
    var establishedAt: Option<nat>
    var committedAt: Option<nat>
    var docReferenceId: Option<nat>
    var developmentItemReferenceId: Option<nat>
    var statusActive: bool

    predicate DistinctRecords() {
      forall i, j :: 0 <= i < j < |records| ==> records[i] != records[j]
    }

    function Value(): Epe
      reads this, records
    {
      Epe(key, referenceId, establishedAt, committedAt, docReferenceId, developmentItemReferenceId,
          statusActive, informalConference, Values(records))
    }

    /** Walks the listed end products and stops at the first match. */
    method FindMatchingEndProduct(listing: seq<nat>, claims: seq<Claim>, claimed: set<nat>) returns (r: Option<nat>)
      ensures r == MatchingEndProduct(Value(), listing, claims, claimed)
    {
      var n := 0;
      while n < |listing|
        invariant 0 <= n <= |listing|
        invariant MatchingEndProduct(Value(), listing[n..], claims, claimed)
               == MatchingEndProduct(Value(), listing, claims, claimed)
      {
        if listing[n] < |claims| && MatchesEndProduct(Value(), listing[n], claims, claimed) {
          return Some(listing[n]);
        }
        n := n + 1;
      }
      return None;
    }

    method PerformStep(a: Attempt, vbms: ClaimSystem, table: set<EndProductEstablishment>) returns (outcome: Outcome)
      modifies this, vbms`claims
      ensures (Value(), vbms.claims, outcome) == Perform(old(Value()), a, old(vbms.claims), old(Claimed(table)))
    {
      if referenceId.Some? {
        return Done;
      }
      if PreviouslyAttempted(a.job) {
        var found := FindMatchingEndProduct(a.listing, vbms.claims, Claimed(table));
        if found.Some? {
          referenceId := found;
          establishedAt := Some(a.now);
          return Done;
        }
      }
      if !a.valid {
        return Failed(InvalidEndProduct);
      }
      match a.claimReply
      case Refused =>
        return Failed(ClaimRefused);
      case Lost =>
        vbms.claims := vbms.claims + [Claim(key, true)];
        return Failed(Interrupted);
      case Created =>
        vbms.claims := vbms.claims + [Claim(key, true)];
        referenceId := Some(|vbms.claims| - 1);
        establishedAt := Some(a.now);
        return Done;
    }

    /** Saves a contention id on one record. */
    method SaveContention(k: nat, id: nat)
      requires DistinctRecords() && k < |records|
      modifies records`contentionReferenceId
      ensures Values(records) == old(Values(records))[k := old(records[k].Value()).(contention := Some(id))]
    {
      ghost var before, value := Values(records), records[k].Value().(contention := Some(id));
      records[k].contentionReferenceId := Some(id);
      ghost var after := Values(records);
      forall i | 0 <= i < |records|
        ensures after[i] == before[k := value][i]
      {
        assert i != k ==> records[i] != records[k] && records[i].Value() == before[i];
      }
      assert after == before[k := value];
    }

    /** Writes one returned contention id into the first record waiting for its text, if any. */
    method HandleReturned(c: Returned, existing: set<nat>)
      requires DistinctRecords()
      modifies records`contentionReferenceId
      ensures Values(records) == MatchOne(old(Values(records)), existing, referenceId, c)
    {
      var k := FirstWaiting(Values(records), c.text);
      if c.id !in existing && Some(c.claim) == referenceId && k < |records| {
        SaveContention(k, c.id);
      }
    }

    method CreateContentionsStep(a: Attempt, vbms: ClaimSystem) returns (outcome: Outcome)
      requires DistinctRecords() && referenceId.Some?
      modifies records`contentionReferenceId, vbms`contentions
      ensures (Value(), vbms.contentions, outcome) == CreateContentions(old(Value()), a, old(vbms.contentions))
    {
      ghost var before := Values(records);
      var ready := Ready(Values(records));
      if ready == [] {
        return Done;
      }
      if a.contentionReply.Rejected? {
        return Failed(Interrupted);
      }
      var existing := Known(Values(records));
      vbms.contentions := vbms.contentions + Requested(referenceId.value, ready);
      if a.contentionReply.Unanswered? {
        return Failed(Interrupted);
      }
      var seen := HandleAll(a.contentionReply.list, a.contentionReply.handled, existing);
      if seen < |a.contentionReply.list| {
        return Failed(Interrupted);
      }
      assert a.contentionReply.list[..seen] == a.contentionReply.list;
      outcome := if Ready(Values(records)) != [] then Failed(ContentionCreationFailed) else Done;
    }

    /** Handles the returned contentions in order, stopping where the attempt dies. */
    method HandleAll(list: seq<Returned>, handled: nat, existing: set<nat>) returns (n: nat)
      requires DistinctRecords()
      modifies records`contentionReferenceId
      ensures n == if handled < |list| then handled else |list|
      ensures Values(records) == MatchAll(old(Values(records)), existing, referenceId, list[..n])
    {
      n := 0;
      while n < |list| && n < handled
        invariant 0 <= n <= |list| && n <= handled
        invariant Values(records) == MatchAll(old(Values(records)), existing, referenceId, list[..n])
      {
        assert list[..n + 1][..n] == list[..n];
        HandleReturned(list[n], existing);
        n := n + 1;
      }
    }

    /** The one statement that stamps every active issue contesting a rating issue. */
    method StampAssociated(now: nat)
      requires DistinctRecords()
      modifies records`ratingIssueAssociatedAt
      ensures Values(records) == AssociateAll(old(Values(records)), now)
      ensures forall i :: 0 <= i < |records| ==>
        var before, after := old(records[i].Value()), records[i].Value();
        after == if before.active && before.ratingIssue then before.(associatedAt := Some(now)) else before
    {
      ghost var before := Values(records);
      for n := 0 to |records|
        invariant forall i :: n <= i < |records| ==> records[i].Value() == before[i]
        invariant forall i :: 0 <= i < n ==> records[i].Value() == AssociateAll(before, now)[i]
      {
        if records[n].active && records[n].ratingIssue {
          records[n].ratingIssueAssociatedAt := Some(now);
        }
      }
    }

    method AssociateRatingIssuesStep(a: Attempt) returns (outcome: Outcome)
      requires DistinctRecords()
      modifies records`ratingIssueAssociatedAt
      ensures (Value(), outcome) == AssociateRatingIssues(old(Value()), a)
    {
      if forall i :: 0 <= i < |records| ==> !Unassociated(records[i].Value()) {
        return Done;
      }
      if !a.associated {
        return Failed(Interrupted);
      }
      StampAssociated(a.now);
      return Done;
    }

    method GenerateLetterStep(a: Attempt) returns (outcome: Outcome)
      modifies this`docReferenceId
      ensures (Value(), outcome) == GenerateLetter(old(Value()), a)
    {
      if docReferenceId.None? {
        if a.letter.None? {
          return Failed(Interrupted);
        }
        docReferenceId := a.letter;
      }
      return Done;
    }

    method GenerateItemStep(a: Attempt) returns (outcome: Outcome)
      modifies this`developmentItemReferenceId
      ensures (Value(), outcome) == GenerateItem(old(Value()), a)
    {
      if developmentItemReferenceId.None? {
        if a.item.None? {
          return Failed(Interrupted);
        }
        developmentItemReferenceId := a.item;
      }
      return Done;
    }

    method CommitStep(a: Attempt)
      modifies this`committedAt
      ensures Value() == Commit(old(Value()), a)
    {
      if committedAt.None? {
        committedAt := Some(a.now);
      }
    }

    method EstablishAttempt(a: Attempt, vbms: ClaimSystem, table: set<EndProductEstablishment>) returns (outcome: Outcome)
      requires DistinctRecords()
      modifies this, records, vbms
      ensures Result(Value(), vbms.claims, vbms.contentions, outcome)
           == Establish(old(Value()), a, old(vbms.claims), old(vbms.contentions), old(Claimed(table)))
    {
      if !statusActive {
        return Done;
      }
      outcome := PerformStep(a, vbms, table);
      if outcome.Failed? {
        return;
      }
      outcome := CreateContentionsStep(a, vbms);
      if outcome.Failed? {
        return;
      }
      outcome := AssociateRatingIssuesStep(a);
      if outcome.Failed? {
        return;
      }
      if informalConference {
        outcome := GenerateLetterStep(a);
        if outcome.Failed? {
          return;
        }
        outcome := GenerateItemStep(a);
        if outcome.Failed? {
          return;
        }
      }
      CommitStep(a);
    }
  }
}
