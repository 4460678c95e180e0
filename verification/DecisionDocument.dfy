/** Board grants: `DecisionDocument#process!` creates one effectuation for every granted issue and
    establishes the end products that carry them, over any number of failed and retried attempts. */
module DecisionDocuments {
  import opened Prelude
  import opened EndProductEstablishments
  import opened ContentionMatching
  import opened EstablishmentRuns
  import opened EachUntilFailure

  // ---- Granted issues and end product codes ------------------------------------------------------

  /** A granted decision issue; it is known by its position in the list of granted issues. */
  datatype Granted = Granted(benefitType: string, rating: bool, text: Option<string>)

  predicate ProcessedInVbms(g: Granted) {
    g.benefitType in ["compensation", "pension", "fiduciary"]
  }

  function EndProductCode(g: Granted): string {
    if g.benefitType == "pension" then (if g.rating then "030BGRPMC" else "030BGNRPMC")
    else if g.rating then "030BGR" else "030BGRNR"
  }

  /** Issues share a code exactly when they agree on being rated and on being pension. */
  lemma {:induction false} CodeIdentifiesKind(g: Granted, h: Granted)
    ensures EndProductCode(g) == EndProductCode(h) <==>
      g.rating == h.rating && (g.benefitType == "pension" <==> h.benefitType == "pension")
  {
    assert |"030BGRPMC"| == 9 && |"030BGNRPMC"| == 10 && |"030BGR"| == 6 && |"030BGRNR"| == 8;
  }

  /** The end product codes of board grants, with what each says of its issues: rated or not, pension or not. */
  const END_PRODUCT_KINDS: map<string, (bool, bool)> := map[
    "030BGR" := (true, false), "030BGRNR" := (false, false),
    "030BGRPMC" := (true, true), "030BGNRPMC" := (false, true)]

  lemma {:induction false} CodeNamesKind(g: Granted)
    ensures EndProductCode(g) in END_PRODUCT_KINDS
    ensures END_PRODUCT_KINDS[EndProductCode(g)] == (g.rating, g.benefitType == "pension")
  {
    assert |"030BGRPMC"| == 9 && |"030BGNRPMC"| == 10 && |"030BGR"| == 6 && |"030BGRNR"| == 8;
  }

  /** The document with its effectuations: `tasks` are the granted issues whose effectuation is tracked
      in Caseflow, `lines` the business lines that have a task for them; the effectuations sent to VBMS
      are the records of the end products, under the id of their granted issue. */
  datatype Document = Document(
    veteran: string, decisionDate: nat, payee: string,
    attempted: bool, uploaded: bool, processed: bool, error: bool,
    tasks: seq<nat>, lines: seq<string>, epes: seq<Epe>)

  predicate InEpe(e: Epe, id: nat) { exists k :: 0 <= k < |e.records| && e.records[k].id == id }

  predicate HasEffectuation(doc: Document, id: nat) {
    id in doc.tasks || exists e :: 0 <= e < |doc.epes| && InEpe(doc.epes[e], id)
  }

  // ---- Creating effectuations ----------------------------------------------------------------------

  /** The first end product of this code that is not established yet, or the length. */
  function FirstOpen(epes: seq<Epe>, code: string): (e: nat)
    ensures e <= |epes|
    ensures e < |epes| ==> epes[e].key.code == code && epes[e].establishedAt.None?
    ensures forall i :: 0 <= i < e ==> !(epes[i].key.code == code && epes[i].establishedAt.None?)
  {
    if epes == [] || (epes[0].key.code == code && epes[0].establishedAt.None?) then 0
    else 1 + FirstOpen(epes[1..], code)
  }

  function NewRecord(id: nat, g: Granted): Record { Record(id, g.text, true, None, false, false, None) }

  function NewEpe(doc: Document, code: string): Epe {
    Epe(Key(doc.veteran, code, doc.decisionDate, doc.payee), None, None, None, None, None, true, false, [])
  }

  /** Adds a record to end product `e`, which is built first if there is none at that position. */
  function AddRecord(doc: Document, e: nat, code: string, r: Record): seq<Epe>
    requires e <= |doc.epes|
  {
    if e < |doc.epes| then doc.epes[e := doc.epes[e].(records := doc.epes[e].records + [r])]
    else doc.epes + [NewEpe(doc, code).(records := [r])]
  }

  /** `find_or_create_by`, with the hook that runs before the new effectuation is saved. */
  function FindOrCreate(doc: Document, id: nat, g: Granted): Document {
    if HasEffectuation(doc, id) then doc
    else if !ProcessedInVbms(g) then
      doc.(tasks := doc.tasks + [id],
           lines := if g.benefitType in doc.lines then doc.lines else doc.lines + [g.benefitType])
    else
      var code := EndProductCode(g);
      doc.(epes := AddRecord(doc, FirstOpen(doc.epes, code), code, NewRecord(id, g)))
  }

  predicate Within(order: seq<nat>, granted: seq<Granted>) {
    forall i :: 0 <= i < |order| ==> order[i] < |granted|
  }

  function CreateEffectuations(doc: Document, granted: seq<Granted>, order: seq<nat>): Document
    requires Within(order, granted)
  {
    if order == [] then doc
    else
      var n := |order| - 1;
      FindOrCreate(CreateEffectuations(doc, granted, order[..n]), order[n], granted[order[n]])
  }

  // ---- Establishing the end products ---------------------------------------------------------------

  function ProcessEpe(epe: Epe, a: Attempt, claims: seq<Claim>, contentions: seq<Contention>, claimed: set<nat>): Result {
    var (performed, claims, outcome) := Perform(epe, a, claims, claimed);
    if outcome.Failed? then Result(performed, claims, contentions, outcome)
    else
      var (created, contentions, outcome) := CreateContentions(performed, a, contentions);
      if outcome.Failed? then Result(created, claims, contentions, outcome)
      else Result(Commit(created, a), claims, contentions, Done)
  }

  // ---- One attempt -----------------------------------------------------------------------------------

  /** What happens during one attempt: whether the document is due, the upload, the order in which the
      granted issues are visited and how many are reached, and the calls for each end product. */
  datatype DocumentAttempt = DocumentAttempt(
    ready: bool, upload: bool, order: seq<nat>, reached: nat, otherClaimant: bool,
    scripts: nat -> Attempt, remandClaims: bool)

  predicate VisitsAll(a: DocumentAttempt, granted: seq<Granted>) {
    && Within(a.order, granted)
    && forall id :: 0 <= id < |granted| ==> id in a.order
  }

  function Visited(a: DocumentAttempt): seq<nat> {
    if a.reached < |a.order| then a.order[..a.reached] else a.order
  }

  function Process(doc: Document, granted: seq<Granted>, a: DocumentAttempt, claims: seq<Claim>,
                   contentions: seq<Contention>, others: set<nat>): (Document, seq<Claim>, seq<Contention>)
    requires VisitsAll(a, granted)
  {
    if doc.processed then (doc, claims, contentions)
    else if !a.ready then (doc.(error := true), claims, contentions)
    else if !doc.uploaded && !a.upload then (doc.(attempted := true, error := true), claims, contentions)
    else
      var uploaded := doc.(attempted := true, uploaded := true);
      var created := CreateEffectuations(uploaded, granted, Visited(a));
      if a.reached < |a.order| || a.otherClaimant then (created.(error := true), claims, contentions)
      else
        var r := UntilFailure(ProcessEpe, created.epes, |created.epes|, a.scripts, claims, contentions, others);
        var done := created.(epes := r.epes);
        (if r.ok && a.remandClaims then done.(processed := true) else done.(error := true), r.claims, r.contentions)
  }

  /** The marks an attempt leaves: a processed document stays as it is; otherwise one that is due is marked as
      attempted, and uploaded unless the upload fails; nothing is created or established without the upload, nothing is
      established before every effectuation was reached; and whatever does not end processed ends with the error. */
  lemma {:induction false} ProcessMarks(doc: Document, granted: seq<Granted>, a: DocumentAttempt, claims: seq<Claim>,
                                        contentions: seq<Contention>, others: set<nat>)
    requires VisitsAll(a, granted)
    ensures var (after, claims', contentions') := Process(doc, granted, a, claims, contentions, others);
            && (doc.processed ==> after == doc)
            && (after.attempted <==> doc.attempted || (!doc.processed && a.ready))
            && (after.uploaded <==> doc.uploaded || (!doc.processed && a.ready && a.upload))
            && (doc.processed || !a.ready || !after.uploaded ==>
                  after.epes == doc.epes && after.tasks == doc.tasks && after.lines == doc.lines)
            && (claims' != claims || contentions' != contentions ==>
                  !doc.processed && a.ready && after.uploaded && a.reached >= |a.order| && !a.otherClaimant)
            && (after.processed && !doc.processed ==> a.remandClaims && after.error == doc.error)
            && (!after.processed ==> after.error)
  {
    if !doc.processed && a.ready && (doc.uploaded || a.upload) {
      CreateEffectuationsKeepsMarks(doc.(attempted := true, uploaded := true), granted, Visited(a));
    }
  }

  lemma {:induction false} CreateEffectuationsKeepsMarks(doc: Document, granted: seq<Granted>, order: seq<nat>)
    requires Within(order, granted)
    ensures var after := CreateEffectuations(doc, granted, order);
            (after.attempted, after.uploaded, after.processed, after.error)
            == (doc.attempted, doc.uploaded, doc.processed, doc.error)
  {
    if order != [] {
      CreateEffectuationsKeepsMarks(doc, granted, order[..|order| - 1]);
    }
  }

  // ---- What every attempt keeps ----------------------------------------------------------------------

  predicate EpeRecordsFit(e: Epe, granted: seq<Granted>) {
    && !e.informalConference
    && (forall k :: 0 <= k < |e.records| ==>
          && e.records[k].active && !e.records[k].ratingIssue && e.records[k].id < |granted|
          && ProcessedInVbms(granted[e.records[k].id])
          && e.records[k].text == granted[e.records[k].id].text
          && EndProductCode(granted[e.records[k].id]) == e.key.code)
    && forall k, l :: 0 <= k < l < |e.records| ==> e.records[k].id != e.records[l].id
  }

  predicate TasksPlaced(doc: Document, granted: seq<Granted>) {
    && (forall i :: 0 <= i < |doc.tasks| ==>
          && doc.tasks[i] < |granted| && !ProcessedInVbms(granted[doc.tasks[i]])
          && granted[doc.tasks[i]].benefitType in doc.lines)
    && (forall i, j :: 0 <= i < j < |doc.tasks| ==> doc.tasks[i] != doc.tasks[j])
    && (forall i, j :: 0 <= i < j < |doc.lines| ==> doc.lines[i] != doc.lines[j])
  }

  predicate EpesPlaced(epes: seq<Epe>, granted: seq<Granted>) {
    && (forall e :: 0 <= e < |epes| ==> EpeRecordsFit(epes[e], granted))
    && forall e, f :: 0 <= e < f < |epes| ==> epes[e].key.code != epes[f].key.code
  }

  /** No granted issue has two effectuations, and no code has two end products. */
  predicate Placed(doc: Document, granted: seq<Granted>) {
    TasksPlaced(doc, granted) && EpesPlaced(doc.epes, granted)
  }

  predicate AllCreated(doc: Document, granted: seq<Granted>) {
    forall id :: 0 <= id < |granted| ==> HasEffectuation(doc, id)
  }

  predicate Untouched(e: Epe) { e.claim.None? && e.establishedAt.None? && e.committedAt.None? }

  /** End products are established only after every effectuation exists. */
  predicate CreatedBeforeEstablished(doc: Document, granted: seq<Granted>) {
    (exists e :: 0 <= e < |doc.epes| && !Untouched(doc.epes[e])) ==> AllCreated(doc, granted)
  }

  predicate Sound(doc: Document, granted: seq<Granted>) {
    && Placed(doc, granted) && CreatedBeforeEstablished(doc, granted)
    && (forall e :: 0 <= e < |doc.epes| ==> CommitIsMeaningful(doc.epes[e]))
    && (doc.processed ==>
          AllCreated(doc, granted) && forall e :: 0 <= e < |doc.epes| ==> doc.epes[e].committedAt.Some?)
  }

  lemma {:induction false} AddRecordKeeps(doc: Document, e: nat, code: string, r: Record, id: nat)
    requires e <= |doc.epes|
    ensures var epes := AddRecord(doc, e, code, r);
            && InEpe(epes[e], r.id)
            && (forall f :: 0 <= f < |doc.epes| && InEpe(doc.epes[f], id) ==> InEpe(epes[f], id))
  {
    var epes := AddRecord(doc, e, code, r);
    assert epes[e].records[|epes[e].records| - 1] == r;
    forall f | 0 <= f < |doc.epes| && InEpe(doc.epes[f], id)
      ensures InEpe(epes[f], id)
    {
      var k :| 0 <= k < |doc.epes[f].records| && doc.epes[f].records[k].id == id;
      assert epes[f].records[k] == doc.epes[f].records[k];
    }
  }

  /** Nothing that exists is lost when an effectuation is found or created. */
  lemma {:induction false} FindOrCreateKeeps(doc: Document, id: nat, g: Granted, other: nat)
    ensures HasEffectuation(FindOrCreate(doc, id, g), id)
    ensures HasEffectuation(doc, other) ==> HasEffectuation(FindOrCreate(doc, id, g), other)
  {
    var after := FindOrCreate(doc, id, g);
    if !HasEffectuation(doc, id) && ProcessedInVbms(g) {
      var e := FirstOpen(doc.epes, EndProductCode(g));
      AddRecordKeeps(doc, e, EndProductCode(g), NewRecord(id, g), other);
      assert InEpe(after.epes[e], id);
    }
  }

  lemma {:induction false} AddedRecordFits(e: Epe, id: nat, granted: seq<Granted>)
    requires EpeRecordsFit(e, granted) && !InEpe(e, id) && id < |granted|
    requires ProcessedInVbms(granted[id]) && e.key.code == EndProductCode(granted[id])
    ensures EpeRecordsFit(e.(records := e.records + [NewRecord(id, granted[id])]), granted)
  {
  }

  /** While nothing is established, the new record joins the one end product of its code or a new one. */
  lemma {:induction false} AddRecordPlaces(doc: Document, granted: seq<Granted>, id: nat)
    requires EpesPlaced(doc.epes, granted) && id < |granted| && ProcessedInVbms(granted[id])
    requires forall e :: 0 <= e < |doc.epes| ==> !InEpe(doc.epes[e], id) && Untouched(doc.epes[e])
    ensures var code := EndProductCode(granted[id]);
            var epes := AddRecord(doc, FirstOpen(doc.epes, code), code, NewRecord(id, granted[id]));
            && EpesPlaced(epes, granted)
            && forall e :: 0 <= e < |epes| ==> Untouched(epes[e])
  {
    var code := EndProductCode(granted[id]);
    var e, r := FirstOpen(doc.epes, code), NewRecord(id, granted[id]);
    var epes := AddRecord(doc, e, code, r);
    if e < |doc.epes| {
      AddedRecordFits(doc.epes[e], id, granted);
    } else {
      AddedRecordFits(NewEpe(doc, code), id, granted);
      assert NewEpe(doc, code).records + [r] == [r];
      assert forall f :: 0 <= f < |doc.epes| ==> doc.epes[f].key.code != code;
    }
    forall f | 0 <= f < |epes|
      ensures EpeRecordsFit(epes[f], granted) && Untouched(epes[f])
    {
      if f < |doc.epes| && f != e {
        assert epes[f] == doc.epes[f];
      }
    }
  }

  lemma {:induction false} NothingTouchedYet(doc: Document, granted: seq<Granted>, id: nat)
    requires CreatedBeforeEstablished(doc, granted) && id < |granted| && !HasEffectuation(doc, id)
    ensures forall e :: 0 <= e < |doc.epes| ==> Untouched(doc.epes[e]) && !InEpe(doc.epes[e], id)
  {
  }

  lemma {:induction false} FindOrCreateIsSound(doc: Document, granted: seq<Granted>, id: nat)
    requires Sound(doc, granted) && !doc.processed && id < |granted|
    ensures var after := FindOrCreate(doc, id, granted[id]); Sound(after, granted) && !after.processed
  {
    if !HasEffectuation(doc, id) {
      NothingTouchedYet(doc, granted, id);
      if ProcessedInVbms(granted[id]) {
        AddRecordPlaces(doc, granted, id);
      } else {
        AddTaskPlaces(doc, granted, id);
      }
      UntouchedIsSound(FindOrCreate(doc, id, granted[id]), granted);
    }
  }

  lemma {:induction false} AddTaskPlaces(doc: Document, granted: seq<Granted>, id: nat)
    requires TasksPlaced(doc, granted) && id < |granted| && !HasEffectuation(doc, id) && !ProcessedInVbms(granted[id])
    ensures TasksPlaced(FindOrCreate(doc, id, granted[id]), granted)
  {
  }

  lemma {:induction false} UntouchedIsSound(doc: Document, granted: seq<Granted>)
    requires Placed(doc, granted) && !doc.processed
    requires forall e :: 0 <= e < |doc.epes| ==> Untouched(doc.epes[e])
    ensures Sound(doc, granted)
  {
  }

  /** What is visited has its effectuation. */
  predicate AllVisited(doc: Document, order: seq<nat>) {
    forall i :: 0 <= i < |order| ==> HasEffectuation(doc, order[i])
  }

  lemma {:induction false} OneMoreVisited(doc: Document, order: seq<nat>, id: nat, g: Granted)
    requires AllVisited(doc, order)
    ensures AllVisited(FindOrCreate(doc, id, g), order + [id])
  {
    FindOrCreateKeeps(doc, id, g, id);
    forall i | 0 <= i < |order|
      ensures HasEffectuation(FindOrCreate(doc, id, g), order[i])
    {
      FindOrCreateKeeps(doc, id, g, order[i]);
    }
  }

  lemma {:induction false} CreateEffectuationsIsSound(doc: Document, granted: seq<Granted>, order: seq<nat>)
    requires Sound(doc, granted) && !doc.processed && Within(order, granted)
    ensures var after := CreateEffectuations(doc, granted, order);
            Sound(after, granted) && !after.processed && AllVisited(after, order)
  {
    if order != [] {
      var n := |order| - 1;
      CreateEffectuationsIsSound(doc, granted, order[..n]);
      var before := CreateEffectuations(doc, granted, order[..n]);
      FindOrCreateIsSound(before, granted, order[n]);
      OneMoreVisited(before, order[..n], order[n], granted[order[n]]);
      assert order[..n] + [order[n]] == order;
    }
  }

  lemma {:induction false} CreateContentionsKeepsActive(epe: Epe, a: Attempt, contentions: seq<Contention>)
    requires epe.claim.Some?
    ensures var after := CreateContentions(epe, a, contentions).0;
            |after.records| == |epe.records| && forall k :: 0 <= k < |epe.records| ==> after.records[k].active == epe.records[k].active
  {
    if Ready(epe.records) != [] && a.contentionReply.Answered? {
      var Answered(list, handled) := a.contentionReply;
      var seen := if handled < |list| then list[..handled] else list;
      var after := CreateContentions(epe, a, contentions).0;
      MatchAllOnlyFillsWaiting(epe.records, Known(epe.records), epe.claim, seen);
      assert forall k :: 0 <= k < |epe.records| ==>
        Matched(epe.records[k], after.records[k], Known(epe.records), epe.claim, seen);
    }
  }

  lemma {:induction false} ProcessEpeKeeps(epe: Epe, a: Attempt, claims: seq<Claim>, contentions: seq<Contention>,
                                           claimed: set<nat>, granted: seq<Granted>)
    requires CommitIsMeaningful(epe) && EpeRecordsFit(epe, granted)
    ensures var r := ProcessEpe(epe, a, claims, contentions, claimed);
            && Kept(epe, r.epe) && CommitIsMeaningful(r.epe) && EpeRecordsFit(r.epe, granted)
            && (r.outcome.Done? ==> r.epe.committedAt.Some?)
  {
    PerformKeeps(epe, a, claims, claimed);
    var (performed, _, outcome) := Perform(epe, a, claims, claimed);
    if outcome.Done? {
      CreateContentionsKeeps(performed, a, contentions);
      CreateContentionsKeepsActive(performed, a, contentions);
      var created := CreateContentions(performed, a, contentions).0;
      KeptKeepsFit(performed, created, granted);
    }
  }

  lemma {:induction false} KeptKeepsFit(before: Epe, after: Epe, granted: seq<Granted>)
    requires Kept(before, after) && EpeRecordsFit(before, granted)
    requires forall k :: 0 <= k < |before.records| ==> after.records[k].active == before.records[k].active
    ensures EpeRecordsFit(after, granted)
    ensures forall id :: InEpe(before, id) <==> InEpe(after, id)
  {
    forall id
      ensures InEpe(before, id) <==> InEpe(after, id)
    {
      if k :| 0 <= k < |before.records| && before.records[k].id == id {
        assert after.records[k].id == id;
      }
      if k :| 0 <= k < |after.records| && after.records[k].id == id {
        assert before.records[k].id == id;
      }
    }
  }

  // ---- Establishing keeps it all ---------------------------------------------------------------------

  lemma {:induction false} ProcessEpeStaysSound(epe: Epe, a: Attempt, claims: seq<Claim>, contentions: seq<Contention>,
                                                claimed: set<nat>)
    requires ContentionsSound(epe, contentions) && StepAccurate(ProcessEpe, epe, a, claims, contentions, claimed)
    ensures var r := ProcessEpe(epe, a, claims, contentions, claimed);
            contentions <= r.contentions && ContentionsSound(r.epe, r.contentions)
  {
    PerformKeeps(epe, a, claims, claimed);
    var (performed, _, outcome) := Perform(epe, a, claims, claimed);
    SameIdsStaySound(epe, performed, contentions, contentions);
    if outcome.Done? {
      CreateContentionsStaysSound(performed, a, contentions);
      var (created, store, outcome) := CreateContentions(performed, a, contentions);
      if outcome.Done? {
        SameIdsStaySound(created, Commit(created, a), store, store);
      }
    }
  }

  /** What the loop over the end products has achieved after the first `n`. */
  ghost predicate Progress(epes: seq<Epe>, n: nat, now: seq<Epe>, contentions: seq<Contention>, ok: bool, granted: seq<Granted>) {
    && |now| == |epes| && n <= |epes| && EpesSound(now, contentions)
    && (forall e :: 0 <= e < |epes| ==>
          Kept(epes[e], now[e]) && CommitIsMeaningful(now[e]) && EpeRecordsFit(now[e], granted))
    && (ok ==> forall e :: 0 <= e < n ==> now[e].committedAt.Some?)
  }

  lemma {:induction false} OneMore(epes: seq<Epe>, n: nat, now: seq<Epe>, contentions: seq<Contention>, after: Epe,
                                   more: seq<Contention>, ok: bool, granted: seq<Granted>)
    requires n < |epes| && Progress(epes, n, now, contentions, true, granted)
    requires Kept(now[n], after) && CommitIsMeaningful(after) && EpeRecordsFit(after, granted)
    requires contentions <= more && ContentionsSound(after, more) && (ok ==> after.committedAt.Some?)
    ensures Progress(epes, n + 1, now[n := after], more, ok, granted)
  {
    KeptTransitive(epes[n], now[n], after);
    forall e | 0 <= e < |epes| && e != n
      ensures ContentionsSound(now[e], more)
    {
      SameIdsStaySound(now[e], now[e], contentions, more);
    }
  }

  lemma {:induction false} EachProgresses(epes: seq<Epe>, n: nat, scripts: nat -> Attempt, claims: seq<Claim>,
                                          contentions: seq<Contention>, others: set<nat>, granted: seq<Granted>)
    requires n <= |epes| && EpesSound(epes, contentions)
    requires EachAccurate(ProcessEpe, epes, n, scripts, claims, contentions, others)
    requires forall e :: 0 <= e < |epes| ==> CommitIsMeaningful(epes[e]) && EpeRecordsFit(epes[e], granted)
    ensures var r := UntilFailure(ProcessEpe, epes, n, scripts, claims, contentions, others);
            Progress(epes, n, r.epes, r.contentions, r.ok, granted)
  {
    if n > 0 {
      EachProgresses(epes, n - 1, scripts, claims, contentions, others, granted);
      var before := UntilFailure(ProcessEpe, epes, n - 1, scripts, claims, contentions, others);
      RoundProgresses(epes, n - 1, before, scripts(n - 1), others, granted);
    }
  }

  lemma {:induction false} RoundProgresses(epes: seq<Epe>, n: nat, before: Each, a: Attempt, others: set<nat>,
                                           granted: seq<Granted>)
    requires n < |epes| && Progress(epes, n, before.epes, before.contentions, before.ok, granted)
    requires before.ok ==> StepAccurate(ProcessEpe, before.epes[n], a, before.claims, before.contentions, Held(before.epes) + others)
    ensures var after := Round(ProcessEpe, before, n, a, others);
            Progress(epes, n + 1, after.epes, after.contentions, after.ok, granted)
  {
    if before.ok {
      var e, claimed := before.epes[n], Held(before.epes) + others;
      var r := ProcessEpe(e, a, before.claims, before.contentions, claimed);
      ProcessEpeKeeps(e, a, before.claims, before.contentions, claimed, granted);
      ProcessEpeStaysSound(e, a, before.claims, before.contentions, claimed);
      OneMore(epes, n, before.epes, before.contentions, r.epe, r.contentions, r.outcome.Done?, granted);
    }
  }

  lemma {:induction false} CreateEffectuationsKeepsContentions(doc: Document, granted: seq<Granted>, order: seq<nat>,
        contentions: seq<Contention>)
    requires Sound(doc, granted) && !doc.processed && Within(order, granted) && EpesSound(doc.epes, contentions)
    ensures EpesSound(CreateEffectuations(doc, granted, order).epes, contentions)
  {
    if order != [] {
      var n := |order| - 1;
      CreateEffectuationsKeepsContentions(doc, granted, order[..n], contentions);
      var before := CreateEffectuations(doc, granted, order[..n]);
      AddRecordKeepsContentions(before, order[n], granted[order[n]], contentions);
    }
  }

  lemma {:induction false} RecordAddedStaysSound(e: Epe, r: Record, contentions: seq<Contention>)
    requires ContentionsSound(e, contentions) && r.contention.None?
    ensures ContentionsSound(e.(records := e.records + [r]), contentions)
  {
  }

  lemma {:induction false} AddRecordKeepsContentions(doc: Document, id: nat, g: Granted, contentions: seq<Contention>)
    requires EpesSound(doc.epes, contentions)
    ensures EpesSound(FindOrCreate(doc, id, g).epes, contentions)
  {
    var code, r := EndProductCode(g), NewRecord(id, g);
    var e := FirstOpen(doc.epes, code);
    RecordAddedStaysSound(if e < |doc.epes| then doc.epes[e] else NewEpe(doc, code), r, contentions);
    assert EpesSound(AddRecord(doc, e, code, r), contentions);
  }

  /** The document after the loop over its end products is as sound as before. */
  lemma {:induction false} ProgressIsSound(doc: Document, epes: seq<Epe>, contentions: seq<Contention>, ok: bool,
                                           done: bool, granted: seq<Granted>)
    requires Sound(doc, granted) && !doc.processed && AllCreated(doc, granted)
    requires Progress(doc.epes, |doc.epes|, epes, contentions, ok, granted) && (done ==> ok)
    ensures Sound(doc.(epes := epes, processed := done), granted)
  {
    var after := doc.(epes := epes, processed := done);
    forall id | 0 <= id < |granted|
      ensures HasEffectuation(after, id)
    {
      assert HasEffectuation(doc, id);
      if id !in doc.tasks {
        var e, k :| 0 <= e < |doc.epes| && 0 <= k < |doc.epes[e].records| && doc.epes[e].records[k].id == id;
        assert Kept(doc.epes[e], epes[e]);
        assert epes[e].records[k].id == id;
        assert InEpe(epes[e], id);
      }
    }
    assert forall e :: 0 <= e < |epes| ==> epes[e].key == doc.epes[e].key;
  }

  // ---- Runs of attempts ------------------------------------------------------------------------------

  datatype DocumentSystem = DocumentSystem(doc: Document, claims: seq<Claim>, contentions: seq<Contention>)

  datatype DocumentEvent = DocumentEvent(a: DocumentAttempt, others: set<nat>)

  function DocumentStep(granted: seq<Granted>, s: DocumentSystem, ev: DocumentEvent): DocumentSystem {
    if !VisitsAll(ev.a, granted) then s
    else
      var (doc, claims, contentions) := Process(s.doc, granted, ev.a, s.claims, s.contentions, ev.others);
      DocumentSystem(doc, claims, contentions)
  }

  /** The document as its effectuations have just been created in this attempt. */
  function Created(doc: Document, granted: seq<Granted>, a: DocumentAttempt): Document
    requires Within(a.order, granted)
  {
    CreateEffectuations(doc.(attempted := true, uploaded := true), granted, Visited(a))
  }

  ghost predicate EventAccurate(granted: seq<Granted>, s: DocumentSystem, ev: DocumentEvent) {
    VisitsAll(ev.a, granted) ==>
      var created := Created(s.doc, granted, ev.a);
      EachAccurate(ProcessEpe, created.epes, |created.epes|, ev.a.scripts, s.claims, s.contentions, ev.others)
  }

  lemma {:induction false} SameFlagsSound(doc: Document, other: Document, granted: seq<Granted>)
    requires Sound(doc, granted) && other == doc.(attempted := other.attempted, uploaded := other.uploaded, error := other.error)
    ensures Sound(other, granted)
  {
    assert forall id :: HasEffectuation(doc, id) ==> HasEffectuation(other, id);
  }

  lemma {:induction false} CreatedIsSound(granted: seq<Granted>, doc: Document, a: DocumentAttempt,
                                          contentions: seq<Contention>)
    requires Sound(doc, granted) && !doc.processed && VisitsAll(a, granted) && EpesSound(doc.epes, contentions)
    ensures var created := Created(doc, granted, a);
            && Sound(created, granted) && !created.processed && EpesSound(created.epes, contentions)
            && (a.reached >= |a.order| ==> AllCreated(created, granted))
  {
    var uploaded := doc.(attempted := true, uploaded := true);
    SameFlagsSound(doc, uploaded, granted);
    CreateEffectuationsIsSound(uploaded, granted, Visited(a));
    CreateEffectuationsKeepsContentions(uploaded, granted, Visited(a), contentions);
    if a.reached >= |a.order| {
      forall id | 0 <= id < |granted|
        ensures HasEffectuation(Created(doc, granted, a), id)
      {
        assert id in a.order;
        var i :| 0 <= i < |a.order| && a.order[i] == id;
      }
    }
  }

  /** The last part of an attempt that created every effectuation. */
  lemma {:induction false} ProcessedIsSound(granted: seq<Granted>, created: Document, a: DocumentAttempt,
                                            claims: seq<Claim>, contentions: seq<Contention>, others: set<nat>)
    requires Sound(created, granted) && !created.processed && AllCreated(created, granted)
    requires EpesSound(created.epes, contentions)
    requires EachAccurate(ProcessEpe, created.epes, |created.epes|, a.scripts, claims, contentions, others)
    ensures var r := UntilFailure(ProcessEpe, created.epes, |created.epes|, a.scripts, claims, contentions, others);
            && EpesSound(r.epes, r.contentions)
            && Sound(created.(epes := r.epes, processed := r.ok && a.remandClaims), granted)
  {
    EachProgresses(created.epes, |created.epes|, a.scripts, claims, contentions, others, granted);
    var r := UntilFailure(ProcessEpe, created.epes, |created.epes|, a.scripts, claims, contentions, others);
    ProgressIsSound(created, r.epes, r.contentions, r.ok, r.ok && a.remandClaims, granted);
  }

  lemma {:induction false} DocumentStepIsSound(granted: seq<Granted>, s: DocumentSystem, ev: DocumentEvent)
    requires Sound(s.doc, granted) && EpesSound(s.doc.epes, s.contentions) && EventAccurate(granted, s, ev)
    ensures var after := DocumentStep(granted, s, ev);
            Sound(after.doc, granted) && EpesSound(after.doc.epes, after.contentions)
  {
    var a, after := ev.a, DocumentStep(granted, s, ev);
    if VisitsAll(a, granted) && !s.doc.processed {
      if !a.ready || (!s.doc.uploaded && !a.upload) {
        SameFlagsSound(s.doc, after.doc, granted);
      } else {
        var created := Created(s.doc, granted, a);
        CreatedIsSound(granted, s.doc, a, s.contentions);
        if a.reached < |a.order| || a.otherClaimant {
          SameFlagsSound(created, after.doc, granted);
        } else {
          ProcessedIsSound(granted, created, a, s.claims, s.contentions, ev.others);
          var r := UntilFailure(ProcessEpe, created.epes, |created.epes|, a.scripts, s.claims, s.contentions, ev.others);
          SameFlagsSound(created.(epes := r.epes, processed := r.ok && a.remandClaims), after.doc, granted);
        }
      }
    }
  }

  function DocumentRun(granted: seq<Granted>, s: DocumentSystem, events: seq<DocumentEvent>): DocumentSystem {
    After((s, ev) => DocumentStep(granted, s, ev), s, events)
  }

  ghost predicate RunAccurate(granted: seq<Granted>, s: DocumentSystem, events: seq<DocumentEvent>) {
    events != [] ==>
      var n := |events| - 1;
      RunAccurate(granted, s, events[..n]) && EventAccurate(granted, DocumentRun(granted, s, events[..n]), events[n])
  }

  predicate NewDocument(doc: Document) {
    doc.tasks == [] && doc.lines == [] && doc.epes == [] && !doc.processed
  }

  lemma {:induction false} RunIsSound(granted: seq<Granted>, s: DocumentSystem, events: seq<DocumentEvent>)
    requires NewDocument(s.doc) && RunAccurate(granted, s, events)
    ensures var end := DocumentRun(granted, s, events);
            Sound(end.doc, granted) && EpesSound(end.doc.epes, end.contentions)
  {
    if events != [] {
      var n := |events| - 1;
      RunIsSound(granted, s, events[..n]);
      DocumentStepIsSound(granted, DocumentRun(granted, s, events[..n]), events[n]);
    }
  }

  /** The one effectuation of a granted issue: a Caseflow task, or record `k` of end product `e`. */
  datatype Place = Task(i: nat) | OnEpe(e: nat, k: nat)

  predicate At(doc: Document, id: nat, place: Place) {
    match place
    case Task(i) => i < |doc.tasks| && doc.tasks[i] == id
    case OnEpe(e, k) => e < |doc.epes| && k < |doc.epes[e].records| && doc.epes[e].records[k].id == id
  }

  /** At any point of any run a granted issue has at most one effectuation. */
  lemma {:induction false} AtMostOneEffectuation(granted: seq<Granted>, s: DocumentSystem, events: seq<DocumentEvent>,
                                                 id: nat, p: Place, q: Place)
    requires NewDocument(s.doc) && RunAccurate(granted, s, events)
    requires var doc := DocumentRun(granted, s, events).doc; At(doc, id, p) && At(doc, id, q)
    ensures p == q
    ensures id < |granted| && (p.OnEpe? <==> ProcessedInVbms(granted[id]))
  {
    RunIsSound(granted, s, events);
    var doc := DocumentRun(granted, s, events).doc;
    assert p.OnEpe? ==> EpeRecordsFit(doc.epes[p.e], granted);
    assert q.OnEpe? ==> EpeRecordsFit(doc.epes[q.e], granted);
  }

  lemma {:induction false} ProcessedEpe(granted: seq<Granted>, doc: Document, contentions: seq<Contention>, e: nat)
    requires Sound(doc, granted) && doc.processed && e < |doc.epes| && EpesSound(doc.epes, contentions)
    ensures EpeRecordsFit(doc.epes[e], granted)
    ensures forall f :: 0 <= f < |doc.epes| && doc.epes[f].key.code == doc.epes[e].key.code ==> f == e
    ensures doc.epes[e].claim.Some? && doc.epes[e].committedAt.Some? && DistinctIds(doc.epes[e].records)
    ensures forall k :: 0 <= k < |doc.epes[e].records| ==> doc.epes[e].records[k].contention.Some?
  {
    assert EpeRecordsFit(doc.epes[e], granted) && ContentionsSound(doc.epes[e], contentions);
    assert FullyEstablished(doc.epes[e]);
  }

  // ---- Whose end products they are -------------------------------------------------------------------

  /** Every end product of the document is for its veteran, decision date and payee. */
  predicate KeysFit(doc: Document) {
    forall e :: 0 <= e < |doc.epes| ==>
      doc.epes[e].key == Key(doc.veteran, doc.epes[e].key.code, doc.decisionDate, doc.payee)
  }

  predicate SameOwner(doc: Document, other: Document) {
    other.veteran == doc.veteran && other.decisionDate == doc.decisionDate && other.payee == doc.payee
  }

  lemma {:induction false} CreateEffectuationsKeepsKeys(doc: Document, granted: seq<Granted>, order: seq<nat>)
    requires Within(order, granted) && KeysFit(doc)
    ensures var after := CreateEffectuations(doc, granted, order); KeysFit(after) && SameOwner(doc, after)
  {
    if order != [] {
      var n := |order| - 1;
      CreateEffectuationsKeepsKeys(doc, granted, order[..n]);
      FindOrCreateKeepsKeys(CreateEffectuations(doc, granted, order[..n]), order[n], granted[order[n]]);
    }
  }

  lemma {:induction false} AddRecordKeepsKeys(doc: Document, e: nat, code: string, r: Record)
    requires KeysFit(doc) && e <= |doc.epes|
    ensures KeysFit(doc.(epes := AddRecord(doc, e, code, r)))
  {
  }

  lemma {:induction false} FindOrCreateKeepsKeys(doc: Document, id: nat, g: Granted)
    requires KeysFit(doc)
    ensures KeysFit(FindOrCreate(doc, id, g)) && SameOwner(doc, FindOrCreate(doc, id, g))
  {
    AddRecordKeepsKeys(doc, FirstOpen(doc.epes, EndProductCode(g)), EndProductCode(g), NewRecord(id, g));
  }

  lemma {:induction false} DocumentStepKeepsKeys(granted: seq<Granted>, s: DocumentSystem, ev: DocumentEvent)
    requires KeysFit(s.doc)
    ensures var after := DocumentStep(granted, s, ev).doc; KeysFit(after) && SameOwner(s.doc, after)
  {
    if VisitsAll(ev.a, granted) {
      var created := Created(s.doc, granted, ev.a);
      CreateEffectuationsKeepsKeys(s.doc.(attempted := true, uploaded := true), granted, Visited(ev.a));
      LoopKeepsKeys(created.epes, |created.epes|, ev.a.scripts, s.claims, s.contentions, ev.others);
    }
  }

  lemma {:induction false} ProcessEpeKeepsKey(epe: Epe, a: Attempt, claims: seq<Claim>, contentions: seq<Contention>,
                                              claimed: set<nat>)
    ensures ProcessEpe(epe, a, claims, contentions, claimed).epe.key == epe.key
  {
    var (performed, _, outcome) := Perform(epe, a, claims, claimed);
    PerformKeeps(epe, a, claims, claimed);
    if outcome.Done? {
      CreateContentionsKeepsClaim(performed, a, contentions);
    }
  }

  predicate SameKeys(epes: seq<Epe>, others: seq<Epe>) {
    |others| == |epes| && forall e :: 0 <= e < |epes| ==> others[e].key == epes[e].key
  }

  lemma {:induction false} RoundKeepsKeys(epes: seq<Epe>, n: nat, before: Each, a: Attempt, others: set<nat>)
    requires n < |epes| && SameKeys(epes, before.epes)
    ensures SameKeys(epes, Round(ProcessEpe, before, n, a, others).epes)
  {
    ProcessEpeKeepsKey(before.epes[n], a, before.claims, before.contentions, Held(before.epes) + others);
  }

  lemma {:induction false} LoopKeepsKeys(epes: seq<Epe>, n: nat, scripts: nat -> Attempt, claims: seq<Claim>,
                                         contentions: seq<Contention>, others: set<nat>)
    requires n <= |epes|
    ensures SameKeys(epes, UntilFailure(ProcessEpe, epes, n, scripts, claims, contentions, others).epes)
  {
    var keeps := (m: nat, p: Each) => SameKeys(epes, p.epes);
    forall m: nat, p: Each | m < |epes| == |p.epes| && keeps(m, p)
      ensures keeps(m + 1, Round(ProcessEpe, p, m, scripts(m), others))
    {
      RoundKeepsKeys(epes, m, p, scripts(m), others);
    }
    LoopKeeps(ProcessEpe, keeps, epes, n, scripts, claims, contentions, others);
  }

  lemma {:induction false} RunKeepsKeys(granted: seq<Granted>, s: DocumentSystem, events: seq<DocumentEvent>)
    requires NewDocument(s.doc)
    ensures var end := DocumentRun(granted, s, events).doc; KeysFit(end) && SameOwner(s.doc, end)
  {
    if events != [] {
      var n := |events| - 1;
      RunKeepsKeys(granted, s, events[..n]);
      DocumentStepKeepsKeys(granted, DocumentRun(granted, s, events[..n]), events[n]);
    }
  }

  /** A task whose business line is on record, or a place on the one end product of the issue's kind, which is
      established and committed with a contention of its own for each of its issues, under the issue's text. */
  predicate Effectuated(doc: Document, g: Granted, id: nat, p: Place, contentions: seq<Contention>) {
    && At(doc, id, p)
    && (p.OnEpe? <==> g.benefitType in {"compensation", "pension", "fiduciary"})
    && (p.Task? ==> g.benefitType in doc.lines)
    && (p.OnEpe? ==>
          var e := doc.epes[p.e];
          && e.key.code in END_PRODUCT_KINDS
          && END_PRODUCT_KINDS[e.key.code] == (g.rating, g.benefitType == "pension")
          && e.key == Key(doc.veteran, e.key.code, doc.decisionDate, doc.payee)
          && (forall f :: 0 <= f < |doc.epes| && doc.epes[f].key.code == e.key.code ==> f == p.e)
          && e.committedAt.Some? && DistinctIds(e.records)
          && e.claim.Some? && HasContention(e.records[p.k], e.claim.value, g.text, contentions)
          && forall k :: 0 <= k < |e.records| ==> e.records[k].contention.Some?)
  }

  predicate HasContention(r: Record, claim: nat, text: Option<string>, contentions: seq<Contention>) {
    && r.contention.Some? && r.contention.value < |contentions|
    && contentions[r.contention.value] == Contention(claim, text)
  }

  lemma {:induction false} ProcessedPlace(granted: seq<Granted>, doc: Document, id: nat, p: Place,
                                          contentions: seq<Contention>)
    requires Sound(doc, granted) && doc.processed && EpesSound(doc.epes, contentions) && KeysFit(doc)
    requires id < |granted| && At(doc, id, p)
    ensures Effectuated(doc, granted[id], id, p, contentions)
  {
    if p.OnEpe? {
      ProcessedEpe(granted, doc, contentions, p.e);
      CodeNamesKind(granted[id]);
      assert ContentionsSound(doc.epes[p.e], contentions);
    } else {
      assert TasksPlaced(doc, granted);
    }
  }

  /** Once `process!` has succeeded, each granted issue has its effectuation, for the veteran, decision date and payee
      the document started with. */
  lemma {:induction false} ProcessedMeansEffectuated(granted: seq<Granted>, s: DocumentSystem,
                                                     events: seq<DocumentEvent>, id: nat) returns (p: Place)
    requires NewDocument(s.doc) && RunAccurate(granted, s, events) && id < |granted|
    requires DocumentRun(granted, s, events).doc.processed
    ensures var end := DocumentRun(granted, s, events);
            SameOwner(s.doc, end.doc) && Effectuated(end.doc, granted[id], id, p, end.contentions)
  {
    RunIsSound(granted, s, events);
    RunKeepsKeys(granted, s, events);
    var end := DocumentRun(granted, s, events);
    assert HasEffectuation(end.doc, id);
    if id in end.doc.tasks {
      var i :| 0 <= i < |end.doc.tasks| && end.doc.tasks[i] == id;
      p := Task(i);
    } else {
      var e, k :| 0 <= e < |end.doc.epes| && 0 <= k < |end.doc.epes[e].records| && end.doc.epes[e].records[k].id == id;
      p := OnEpe(e, k);
    }
    ProcessedPlace(granted, end.doc, id, p, end.contentions);
  }

  // ---- Claims and contentions of the whole document ---------------------------------------------------

  lemma {:induction false} ProcessEpeTakesFree(epe: Epe, a: Attempt, claims: seq<Claim>, contentions: seq<Contention>,
                                               claimed: set<nat>)
    ensures TakesFree(epe, claims, claimed, ProcessEpe(epe, a, claims, contentions, claimed))
  {
    var (performed, _, outcome) := Perform(epe, a, claims, claimed);
    PerformKeeps(epe, a, claims, claimed);
    if outcome.Done? {
      CreateContentionsKeepsClaim(performed, a, contentions);
    }
  }

  lemma {:induction false} UndisturbedProcessEpe(epe: Epe, a: Attempt, claims: seq<Claim>, contentions: seq<Contention>,
                                                 claimed: set<nat>)
    requires ContentionsSound(epe, contentions) && NothingFails(epe, a, claims, contentions, claimed)
    ensures var r := ProcessEpe(epe, a, claims, contentions, claimed); r.outcome == Done && StaysSound(contentions, r)
  {
    UndisturbedContentions(epe, a, claims, contentions, claimed);
    var performed := Perform(epe, a, claims, claimed).0;
    var (created, store, _) := CreateContentions(performed, a, contentions);
    SameIdsStaySound(created, Commit(created, a), store, store);
  }

  lemma {:induction false} ProcessEpeHandles()
    ensures AlwaysTakesFree(ProcessEpe) && CalmIsDone(ProcessEpe, NothingFails)
  {
    forall epe, a, claims, contentions, claimed
      ensures TakesFree(epe, claims, claimed, ProcessEpe(epe, a, claims, contentions, claimed))
    {
      ProcessEpeTakesFree(epe, a, claims, contentions, claimed);
    }
    forall epe, a, claims, contentions, claimed |
        ContentionsSound(epe, contentions) && NothingFails(epe, a, claims, contentions, claimed)
      ensures ProcessEpe(epe, a, claims, contentions, claimed).outcome == Done
      ensures StaysSound(contentions, ProcessEpe(epe, a, claims, contentions, claimed))
    {
      UndisturbedProcessEpe(epe, a, claims, contentions, claimed);
    }
  }

  lemma {:induction false} AddRecordKeepsApart(doc: Document, e: nat, code: string, r: Record, claims: seq<Claim>)
    requires e <= |doc.epes| && ClaimsApart(doc.epes, claims)
    ensures ClaimsApart(AddRecord(doc, e, code, r), claims)
  {
    var after := AddRecord(doc, e, code, r);
    assert forall f :: 0 <= f < |after| ==> after[f].claim == if f < |doc.epes| then doc.epes[f].claim else None;
  }

  lemma {:induction false} CreateEffectuationsKeepsApart(doc: Document, granted: seq<Granted>, order: seq<nat>,
                                                         claims: seq<Claim>)
    requires Within(order, granted) && ClaimsApart(doc.epes, claims)
    ensures ClaimsApart(CreateEffectuations(doc, granted, order).epes, claims)
  {
    if order != [] {
      var n := |order| - 1;
      CreateEffectuationsKeepsApart(doc, granted, order[..n], claims);
      FindOrCreateKeepsApart(CreateEffectuations(doc, granted, order[..n]), order[n], granted[order[n]], claims);
    }
  }

  lemma {:induction false} FindOrCreateKeepsApart(doc: Document, id: nat, g: Granted, claims: seq<Claim>)
    requires ClaimsApart(doc.epes, claims)
    ensures ClaimsApart(FindOrCreate(doc, id, g).epes, claims)
  {
    AddRecordKeepsApart(doc, FirstOpen(doc.epes, EndProductCode(g)), EndProductCode(g), NewRecord(id, g), claims);
  }

  lemma {:induction false} DocumentStepKeepsApart(granted: seq<Granted>, s: DocumentSystem, ev: DocumentEvent)
    requires ClaimsApart(s.doc.epes, s.claims)
    ensures var after := DocumentStep(granted, s, ev); ClaimsApart(after.doc.epes, after.claims)
  {
    var a := ev.a;
    if VisitsAll(a, granted) {
      var created := Created(s.doc, granted, a);
      CreateEffectuationsKeepsApart(s.doc.(attempted := true, uploaded := true), granted, Visited(a), s.claims);
      ProcessEpeHandles();
      LoopKeepsApart(ProcessEpe, created.epes, |created.epes|, a.scripts, s.claims, s.contentions, ev.others);
    }
  }

  lemma {:induction false} RunKeepsApart(granted: seq<Granted>, s: DocumentSystem, events: seq<DocumentEvent>)
    requires NewDocument(s.doc)
    ensures var end := DocumentRun(granted, s, events); ClaimsApart(end.doc.epes, end.claims)
  {
    if events != [] {
      var n := |events| - 1;
      RunKeepsApart(granted, s, events[..n]);
      DocumentStepKeepsApart(granted, DocumentRun(granted, s, events[..n]), events[n]);
    }
  }

  /** Over every run no two effectuations of the document, on one end product or on two, share a contention. */
  lemma {:induction false} NoEffectuationsShareContention(granted: seq<Granted>, s: DocumentSystem,
                                                          events: seq<DocumentEvent>, i: nat, k: nat, j: nat, l: nat)
    requires NewDocument(s.doc) && RunAccurate(granted, s, events) && (i, k) != (j, l)
    requires var epes := DocumentRun(granted, s, events).doc.epes;
             && i < |epes| && k < |epes[i].records| && j < |epes| && l < |epes[j].records|
             && epes[i].records[k].contention.Some?
    ensures var epes := DocumentRun(granted, s, events).doc.epes;
            epes[i].records[k].contention != epes[j].records[l].contention
  {
    var end := DocumentRun(granted, s, events);
    RunIsSound(granted, s, events);
    RunKeepsApart(granted, s, events);
    ContentionsApart(end.doc.epes, end.claims, end.contentions, i, k, j, l);
  }

  /** From every reachable state, an attempt on a document that is due, in which no call fails, ends with the
      document processed. */
  lemma {:induction false} UndisturbedDocumentIsProcessed(granted: seq<Granted>, s: DocumentSystem,
                                                          events: seq<DocumentEvent>, ev: DocumentEvent)
    requires NewDocument(s.doc) && RunAccurate(granted, s, events)
    requires var a := ev.a;
             && VisitsAll(a, granted) && a.ready && a.reached >= |a.order| && !a.otherClaimant && a.remandClaims
             && (DocumentRun(granted, s, events).doc.uploaded || a.upload)
    requires var end := DocumentRun(granted, s, events);
             var epes := Created(end.doc, granted, ev.a).epes;
             EachCalm(ProcessEpe, NothingFails, epes, |epes|, ev.a.scripts, end.claims, end.contentions, ev.others)
    ensures DocumentStep(granted, DocumentRun(granted, s, events), ev).doc.processed
  {
    var end := DocumentRun(granted, s, events);
    RunIsSound(granted, s, events);
    if !end.doc.processed {
      var created := Created(end.doc, granted, ev.a);
      CreatedIsSound(granted, end.doc, ev.a, end.contentions);
      ProcessEpeHandles();
      CalmLoop(ProcessEpe, NothingFails, created.epes, |created.epes|, ev.a.scripts, end.claims, end.contentions, ev.others);
    }
  }

  // ---- The same steps on the document object -----------------------------------------------------------

  class DecisionDocument {
    const veteran: string
    const decisionDate: nat
    const payee: string
    var attempted: bool
    var uploadedToVbms: bool
    var processed: bool
    var error: bool
    var tasks: seq<nat>
    var lines: seq<string>
    var endProductEstablishments: seq<Epe>

    function Value(): Document
      reads this
    {
      Document(veteran, decisionDate, payee, attempted, uploadedToVbms, processed, error, tasks, lines,
               endProductEstablishments)
    }

    method FindOrCreateEffectuation(id: nat, g: Granted)
      modifies this`tasks, this`lines, this`endProductEstablishments
      ensures Value() == FindOrCreate(old(Value()), id, g)
    {
      if HasEffectuation(Value(), id) {
        return;
      }
      if !ProcessedInVbms(g) {
        if g.benefitType !in lines {
          lines := lines + [g.benefitType];
        }
        tasks := tasks + [id];
        return;
      }
      var e := FirstOpen(endProductEstablishments, EndProductCode(g));
      if e == |endProductEstablishments| {
        endProductEstablishments := endProductEstablishments + [NewEpe(Value(), EndProductCode(g))];
      }
      var epe := endProductEstablishments[e];
      endProductEstablishments := endProductEstablishments[e := epe.(records := epe.records + [NewRecord(id, g)])];
      assert [NewRecord(id, g)] == [] + [NewRecord(id, g)];
    }

    method CreateBoardGrantEffectuations(granted: seq<Granted>, order: seq<nat>)
      requires Within(order, granted)
      modifies this`tasks, this`lines, this`endProductEstablishments
      ensures Value() == CreateEffectuations(old(Value()), granted, order)
    {
      var n := 0;
      while n < |order|
        invariant 0 <= n <= |order|
        invariant Value() == CreateEffectuations(old(Value()), granted, order[..n])
      {
        assert order[..n + 1][..n] == order[..n];
        FindOrCreateEffectuation(order[n], granted[order[n]]);
        n := n + 1;
      }
      assert order[..n] == order;
    }

    function State(vbms: ClaimSystem, ok: bool): Each
      reads this, vbms
    {
      Each(endProductEstablishments, vbms.claims, vbms.contentions, ok)
    }

    method ProcessBoardGrantEffectuations(scripts: nat -> Attempt, vbms: ClaimSystem, others: set<nat>) returns (ok: bool)
      modifies this`endProductEstablishments, vbms
      ensures State(vbms, ok)
           == UntilFailure(ProcessEpe, old(endProductEstablishments), |old(endProductEstablishments)|, scripts,
                           old(vbms.claims), old(vbms.contentions), others)
    {
      var after, n;
      after, ok, n := HandleUntilFailure(ProcessEpe, endProductEstablishments, scripts, vbms, others);
      endProductEstablishments := after;
    }

    method ProcessAttempt(granted: seq<Granted>, a: DocumentAttempt, vbms: ClaimSystem, others: set<nat>)
      requires VisitsAll(a, granted)
      modifies this, vbms
      ensures (Value(), vbms.claims, vbms.contentions)
           == Process(old(Value()), granted, a, old(vbms.claims), old(vbms.contentions), others)
    {
      if processed {
        return;
      }
      if !a.ready {
        error := true;
        return;
      }
      attempted := true;
      if !uploadedToVbms && !a.upload {
        error := true;
        return;
      }
      uploadedToVbms := true;
      CreateBoardGrantEffectuations(granted, Visited(a));
      if a.reached < |a.order| || a.otherClaimant {
        error := true;
        return;
      }
      var ok := ProcessBoardGrantEffectuations(a.scripts, vbms, others);
      if ok && a.remandClaims {
        processed := true;
      } else {
        error := true;
      }
    }
  }
}
