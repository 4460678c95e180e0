/** Editing the claim label of an established end product. */
module EndProductUpdates {
  import opened Prelude

  /** What a claim label says: an entry of the table of end product codes. */
  datatype ClaimType = ClaimType(benefit: string, issueType: IssueType, correction: Option<string>)

  datatype IssueType = Rating | Nonrating

  type ClaimTypes = map<string, ClaimType>

  const UNKNOWN_CATEGORY := "Unknown Issue Category"

  /** A request issue; `epe` and `review` are positions in their tables. */
  datatype Issue = Issue(
    epe: Option<nat>, review: nat, rating: bool, benefit: string, correction: Option<string>,
    category: Option<string>, description: Option<string>, edited: Option<string>, contested: Option<string>)

  datatype Epe = Epe(code: string, source: nat)

  /** `attributes` stands for the class and everything `stream_attributes` copies. */
  datatype Review = Review(attributes: nat, benefit: string)

  datatype Tables = Tables(reviews: seq<Review>, epes: seq<Epe>, issues: seq<Issue>)

  // ---- Texts -----------------------------------------------------------------------------------------

  predicate Blank(s: string) {
    forall i :: 0 <= i < |s| ==> s[i] in {' ', '\t', '\n', '\r'}
  }

  function Presence(s: Option<string>): Option<string> {
    if s.Some? && !Blank(s.value) then s else None
  }

  function ToNonrating(issue: Issue): Issue {
    issue.(rating := false, category := Some(UNKNOWN_CATEGORY),
           description := if Presence(issue.edited).Some? then Presence(issue.edited) else issue.contested)
  }

  function ToRating(issue: Issue): Issue {
    issue.(rating := true, edited := issue.description)
  }

  /** The description of a nonrating issue survives a change to rating and back exactly when it is not
      blank, or when it is what was contested in the first place. */
  lemma {:induction false} DescriptionSurvivesIff(issue: Issue)
    ensures ToNonrating(ToRating(issue)).description == issue.description <==>
      Presence(issue.description).Some? || issue.description == issue.contested
  {
  }

  /** The wording of a rating issue survives a change to nonrating and back. */
  lemma {:induction false} WordingSurvives(issue: Issue)
    ensures var there := ToRating(ToNonrating(issue));
            (if Presence(there.edited).Some? then Presence(there.edited) else there.contested) ==
            if Presence(issue.edited).Some? then Presence(issue.edited) else issue.contested
  {
  }

  // ---- The update as a whole --------------------------------------------------------------------------

  function Relabelled(issue: Issue, was: ClaimType, becomes: ClaimType, review: nat): Issue {
    var corrected := if becomes.correction != was.correction then issue.(correction := becomes.correction) else issue;
    var typed := if becomes.issueType == was.issueType then corrected
                 else if becomes.issueType == Rating then ToRating(corrected) else ToNonrating(corrected);
    if becomes.benefit != was.benefit then typed.(benefit := becomes.benefit, review := review) else typed
  }

  /** How many end products a review has. */
  function SourceCount(epes: seq<Epe>, review: nat): nat {
    if epes == [] then 0
    else SourceCount(epes[..|epes| - 1], review) + if epes[|epes| - 1].source == review then 1 else 0
  }

  /** The first review with these attributes and benefit type, or the number of reviews. */
  function FindStream(reviews: seq<Review>, stream: Review): (r: nat)
    ensures r <= |reviews|
    ensures r < |reviews| ==> reviews[r] == stream
    ensures stream in reviews ==> r < |reviews|
    ensures forall i :: 0 <= i < r ==> reviews[i] != stream
  {
    if reviews == [] || reviews[0] == stream then 0 else 1 + FindStream(reviews[1..], stream)
  }

  /** Whether the end product has to move to another review. */
  predicate Splits(t: Tables, review: nat, was: ClaimType, becomes: ClaimType) {
    becomes.benefit != was.benefit && SourceCount(t.epes, review) > 1
  }

  /** The tables after a successful update of end product `e` of `review`. */
  function Updated(t: Tables, e: nat, review: nat, code: string, was: ClaimType, becomes: ClaimType): Tables
    requires e < |t.epes| && review < |t.reviews|
  {
    var stream := t.reviews[review].(benefit := becomes.benefit);
    var splits := Splits(t, review, was, becomes);
    var reviews := if splits then (if stream in t.reviews then t.reviews else t.reviews + [stream])
                   else if becomes.benefit != was.benefit then t.reviews[review := stream] else t.reviews;
    var target := if splits then FindStream(t.reviews, stream) else review;
    Tables(
      reviews,
      t.epes[e := Epe(code, if splits then target else t.epes[e].source)],
      seq(|t.issues|, i requires 0 <= i < |t.issues| =>
        if t.issues[i].epe == Some(e)
        then Relabelled(t.issues[i], was, becomes, if splits then target else t.issues[i].review)
        else t.issues[i]))
  }

  /** What an update makes of an issue of the end product, column by column: the correction and the benefit type are
      those of the new label when the labels differ in them, and when they differ in the issue type the issue is turned
      to the new one. A description with nothing but white space does not count as one. */
  lemma {:induction false} UpdateChanges(t: Tables, e: nat, review: nat, code: string, was: ClaimType,
                                         becomes: ClaimType, i: nat)
    requires e < |t.epes| && review < |t.reviews| && i < |t.issues| && t.issues[i].epe == Some(e)
    ensures var before, after := t.issues[i], Updated(t, e, review, code, was, becomes).issues[i];
            && after.epe == before.epe && after.contested == before.contested
            && after.correction == (if becomes.correction != was.correction then becomes.correction else before.correction)
            && after.benefit == (if becomes.benefit != was.benefit then becomes.benefit else before.benefit)
            && (becomes.issueType == was.issueType ==>
                  (after.rating, after.category, after.description, after.edited)
                  == (before.rating, before.category, before.description, before.edited))
            && (becomes.issueType == Rating && was.issueType == Nonrating ==>
                  (after.rating, after.category, after.description, after.edited)
                  == (true, before.category, before.description, before.description))
            && (becomes.issueType == Nonrating && was.issueType == Rating ==>
                  (after.rating, after.category, after.edited) == (false, Some("Unknown Issue Category"), before.edited)
                  && after.description == if before.edited.Some? && ShowsSomething(before.edited.value)
                                          then before.edited else before.contested)
  {
  }

  predicate ShowsSomething(s: string) {
    exists k :: 0 <= k < |s| && s[k] != ' ' && s[k] != '\t' && s[k] != '\n' && s[k] != '\r'
  }

  datatype Status = Success | Error

  /** The record of an update, with the tables it works on. */
  class EndProductUpdate {
    const epe: nat
    const review: nat
    const originalCode: string
    const newCode: string
    var status: Option<Status>
    var reviews: seq<Review>
    var epes: seq<Epe>
    var issues: seq<Issue>
    /** The claim label of the end product at the Benefits Gateway Service. */
    var remoteCode: string

    function Contents(): Tables
      reads this
    {
      Tables(reviews, epes, issues)
    }

    method UpdateCorrectionType(was: ClaimType, becomes: ClaimType)
      modifies this`issues
      ensures |issues| == |old(issues)|
      ensures forall i :: 0 <= i < |issues| ==>
        issues[i] == if old(issues)[i].epe == Some(epe) && becomes.correction != was.correction
                     then old(issues)[i].(correction := becomes.correction) else old(issues)[i]
    {
      if becomes.correction == was.correction {
        return;
      }
      for n := 0 to |issues|
        invariant |issues| == |old(issues)|
        invariant forall i :: n <= i < |issues| ==> issues[i] == old(issues)[i]
        invariant forall i :: 0 <= i < n ==>
          issues[i] == if old(issues)[i].epe == Some(epe) then old(issues)[i].(correction := becomes.correction) else old(issues)[i]
      {
        if issues[n].epe == Some(epe) {
          issues := issues[n := issues[n].(correction := becomes.correction)];
        }
      }
    }

    method UpdateIssueTypeToRating()
      modifies this`issues
      ensures |issues| == |old(issues)|
      ensures forall i :: 0 <= i < |issues| ==>
        issues[i] == if old(issues)[i].epe == Some(epe) then ToRating(old(issues)[i]) else old(issues)[i]
    {
      for n := 0 to |issues|
        invariant |issues| == |old(issues)|
        invariant forall i :: n <= i < |issues| ==> issues[i] == old(issues)[i]
        invariant forall i :: 0 <= i < n ==>
          issues[i] == if old(issues)[i].epe == Some(epe) then ToRating(old(issues)[i]) else old(issues)[i]
      {
        var issue := issues[n];
        if issue.epe == Some(epe) {
          issues := issues[n := issue.(rating := true, edited := issue.description)];
        }
      }
    }

    method UpdateIssueTypeToNonrating()
      modifies this`issues
      ensures |issues| == |old(issues)|
      ensures forall i :: 0 <= i < |issues| ==>
        issues[i] == if old(issues)[i].epe == Some(epe) then ToNonrating(old(issues)[i]) else old(issues)[i]
    {
      for n := 0 to |issues|
        invariant |issues| == |old(issues)|
        invariant forall i :: n <= i < |issues| ==> issues[i] == old(issues)[i]
        invariant forall i :: 0 <= i < n ==>
          issues[i] == if old(issues)[i].epe == Some(epe) then ToNonrating(old(issues)[i]) else old(issues)[i]
      {
        var issue := issues[n];
        if issue.epe == Some(epe) {
          var description := if Presence(issue.edited).Some? then Presence(issue.edited) else issue.contested;
          issues := issues[n := issue.(rating := false, category := Some(UNKNOWN_CATEGORY), description := description)];
        }
      }
    }

    /** `find_or_create_stream!` on the original review. */
    method FindOrCreateStream(benefit: string) returns (stream: nat)
      requires review < |reviews|
      modifies this`reviews
      ensures stream == FindStream(old(reviews), old(reviews)[review].(benefit := benefit)) < |reviews|
      ensures reviews[stream] == old(reviews)[review].(benefit := benefit)
      ensures reviews == if reviews[stream] in old(reviews) then old(reviews) else old(reviews) + [reviews[stream]]
    {
      var attributes := reviews[review].(benefit := benefit);
      stream := FindStream(reviews, attributes);
      if stream == |reviews| {
        reviews := reviews + [attributes];
      }
    }

    /** Moves the issues of the end product to a review, with the benefit type given. */
    method MoveIssues(benefit: string, target: Option<nat>)
      modifies this`issues
      ensures |issues| == |old(issues)|
      ensures forall i :: 0 <= i < |issues| ==>
        issues[i] == if old(issues)[i].epe == Some(epe)
                     then old(issues)[i].(benefit := benefit, review := if target.Some? then target.value else old(issues)[i].review)
                     else old(issues)[i]
    {
      for n := 0 to |issues|
        invariant |issues| == |old(issues)|
        invariant forall i :: n <= i < |issues| ==> issues[i] == old(issues)[i]
        invariant forall i :: 0 <= i < n ==>
          issues[i] == if old(issues)[i].epe == Some(epe)
                       then old(issues)[i].(benefit := benefit, review := if target.Some? then target.value else old(issues)[i].review)
                       else old(issues)[i]
      {
        var issue := issues[n];
        if issue.epe == Some(epe) {
          issue := issue.(benefit := benefit);
          issues := issues[n := if target.Some? then issue.(review := target.value) else issue];
        }
      }
    }

    method UpdateBenefitType(was: ClaimType, becomes: ClaimType)
      requires epe < |epes| && review < |reviews|
      modifies this`issues, this`epes, this`reviews
      ensures |issues| == |old(issues)|
      ensures var splits := Splits(old(Contents()), review, was, becomes);
              var stream := old(reviews)[review].(benefit := becomes.benefit);
              && reviews == (if splits then (if stream in old(reviews) then old(reviews) else old(reviews) + [stream])
                             else if becomes.benefit != was.benefit then old(reviews)[review := stream] else old(reviews))
              && epes == (if splits then old(epes)[epe := old(epes)[epe].(source := FindStream(old(reviews), stream))] else old(epes))
              && forall i :: 0 <= i < |issues| ==>
                   issues[i] == if old(issues)[i].epe == Some(epe) && becomes.benefit != was.benefit
                                then old(issues)[i].(benefit := becomes.benefit,
                                                     review := if splits then FindStream(old(reviews), stream) else old(issues)[i].review)
                                else old(issues)[i]
    {
      if becomes.benefit == was.benefit {
        return;
      }
      if SourceCount(epes, review) > 1 {
        var stream := FindOrCreateStream(becomes.benefit);
        epes := epes[epe := epes[epe].(source := stream)];
        MoveIssues(becomes.benefit, Some(stream));
      } else {
        MoveIssues(becomes.benefit, None);
        reviews := reviews[review := reviews[review].(benefit := becomes.benefit)];
      }
    }

    method UpdateIssueType(was: ClaimType, becomes: ClaimType)
      modifies this`issues
      ensures |issues| == |old(issues)|
      ensures forall i :: 0 <= i < |issues| ==>
        issues[i] == if old(issues)[i].epe != Some(epe) || becomes.issueType == was.issueType then old(issues)[i]
                     else if becomes.issueType == Rating then ToRating(old(issues)[i]) else ToNonrating(old(issues)[i])
    {
      if becomes.issueType == was.issueType {
        return;
      }
      if becomes.issueType == Rating {
        UpdateIssueTypeToRating();
      } else {
        UpdateIssueTypeToNonrating();
      }
    }

    /** The rest of the transaction once the end product has its new code. */
    method UpdateTables(was: ClaimType, becomes: ClaimType)
      requires epe < |epes| && review < |reviews| && epes[epe].code == newCode
      modifies this`issues, this`epes, this`reviews
      ensures Contents() == Updated(old(Contents()), epe, review, newCode, was, becomes)
    {
      UpdateCorrectionType(was, becomes);
      UpdateIssueType(was, becomes);
      UpdateBenefitType(was, becomes);
      assert issues == Updated(old(Contents()), epe, review, newCode, was, becomes).issues;
    }

    /** `perform!`: `accepted` says whether the remote system changed the label. */
    method Perform(claimTypes: ClaimTypes, accepted: bool) returns (ok: bool)
      requires epe < |epes| && review < |reviews|
      modifies this
      ensures ok == (accepted && originalCode in claimTypes && newCode in claimTypes)
      ensures ok ==> status == old(status)
      ensures ok ==> Contents() == Updated(old(Contents()), epe, review, newCode, claimTypes[originalCode], claimTypes[newCode])
      ensures !ok ==> status == Some(Error) && Contents() == old(Contents())
      ensures remoteCode == if accepted then newCode else old(remoteCode)
    {
      if !accepted {
        status := Some(Error);
        return false;
      }
      remoteCode := newCode;
      var before := epes;
      epes := epes[epe := epes[epe].(code := newCode)];
      if newCode !in claimTypes || originalCode !in claimTypes {
        // the lookup of the labels raises and the transaction is rolled back
        epes := before;
        status := Some(Error);
        return false;
      }
      SourceCountOfEdit(before, epe, newCode, review);
      UpdateTables(claimTypes[originalCode], claimTypes[newCode]);
      return true;
    }
  }

  lemma {:induction false} SourceCountOfEdit(epes: seq<Epe>, e: nat, code: string, review: nat)
    requires e < |epes|
    ensures SourceCount(epes[e := epes[e].(code := code)], review) == SourceCount(epes, review)
  {
    var edited, n := epes[e := epes[e].(code := code)], |epes| - 1;
    if e < n {
      assert edited[..n] == epes[..n][e := epes[..n][e].(code := code)];
      SourceCountOfEdit(epes[..n], e, code, review);
    } else {
      assert edited[..n] == epes[..n];
    }
  }

  // ---- Labels and issues agree ------------------------------------------------------------------------

  predicate IssueAgrees(issue: Issue, tag: ClaimType, source: nat) {
    && issue.benefit == tag.benefit && (issue.rating <==> tag.issueType == Rating)
    && issue.correction == tag.correction && issue.review == source
  }

  predicate EpeAgrees(t: Tables, claimTypes: ClaimTypes, e: nat)
    requires e < |t.epes|
  {
    && t.epes[e].code in claimTypes && t.epes[e].source < |t.reviews|
    && t.reviews[t.epes[e].source].benefit == claimTypes[t.epes[e].code].benefit
    && forall i :: 0 <= i < |t.issues| && t.issues[i].epe == Some(e) ==>
         IssueAgrees(t.issues[i], claimTypes[t.epes[e].code], t.epes[e].source)
  }

  /** Every end product, its issues and its review say the same. */
  predicate Agree(t: Tables, claimTypes: ClaimTypes) {
    forall e :: 0 <= e < |t.epes| ==> EpeAgrees(t, claimTypes, e)
  }

  predicate HasIssues(t: Tables, e: nat) {
    exists i :: 0 <= i < |t.issues| && t.issues[i].epe == Some(e)
  }

  /** Two end products of one review are counted. */
  lemma {:induction false} CountsBoth(epes: seq<Epe>, e: nat, f: nat, review: nat)
    requires e < |epes| && epes[e].source == review
    requires f < |epes| && f != e && epes[f].source == review
    ensures SourceCount(epes, review) > 1
  {
    var n := |epes| - 1;
    if e < n && f < n {
      CountsBoth(epes[..n], e, f, review);
    } else {
      CountsOne(epes[..n], if e < n then e else f, review);
    }
  }

  lemma {:induction false} CountsOne(epes: seq<Epe>, e: nat, review: nat)
    requires e < |epes| && epes[e].source == review
    ensures SourceCount(epes, review) > 0
  {
    var n := |epes| - 1;
    if e < n {
      CountsOne(epes[..n], e, review);
    }
  }

  lemma {:induction false} CountedOnce(epes: seq<Epe>, review: nat) returns (e: nat)
    requires SourceCount(epes, review) > 0
    ensures e < |epes| && epes[e].source == review
  {
    var n := |epes| - 1;
    if epes[n].source == review {
      e := n;
    } else {
      e := CountedOnce(epes[..n], review);
    }
  }

  /** A review is shared when two end products have it as their source. */
  lemma {:induction false} SharedIff(epes: seq<Epe>, review: nat)
    ensures SourceCount(epes, review) > 1 <==>
      exists e, f :: 0 <= e < f < |epes| && epes[e].source == review && epes[f].source == review
  {
    if e, f :| 0 <= e < f < |epes| && epes[e].source == review && epes[f].source == review {
      CountsBoth(epes, e, f, review);
    }
    if SourceCount(epes, review) > 1 {
      var n := |epes| - 1;
      if epes[n].source == review {
        var e := CountedOnce(epes[..n], review);
      } else {
        SharedIff(epes[..n], review);
        var e, f :| 0 <= e < f < n && epes[..n][e].source == review && epes[..n][f].source == review;
        assert epes[e].source == review && epes[f].source == review;
      }
    }
  }

  /** What a label says where the update has nothing to change. */
  predicate NothingMissed(hasIssues: bool, now: ClaimType, was: ClaimType, becomes: ClaimType) {
    && (becomes.benefit == was.benefit ==> now.benefit == becomes.benefit)
    && (hasIssues ==>
          (becomes.correction == was.correction ==> now.correction == becomes.correction)
          && (becomes.issueType == was.issueType ==> now.issueType == becomes.issueType))
  }

  lemma {:induction false} IssueAgreesIff(issue: Issue, now: ClaimType, was: ClaimType, becomes: ClaimType,
                                          source: nat, target: nat)
    requires IssueAgrees(issue, now, source)
    requires becomes.benefit == was.benefit ==> target == source
    ensures IssueAgrees(Relabelled(issue, was, becomes, target), becomes, target) <==> NothingMissed(true, now, was, becomes)
  {
  }

  /** The other end products and their issues are left alone. */
  lemma {:induction false} OthersAgree(t: Tables, claimTypes: ClaimTypes, e: nat, code: string, was: ClaimType,
                                       becomes: ClaimType, f: nat)
    requires e < |t.epes| && Agree(t, claimTypes) && f < |t.epes| && f != e
    requires t.epes[e].source < |t.reviews|
    ensures EpeAgrees(Updated(t, e, t.epes[e].source, code, was, becomes), claimTypes, f)
  {
    var review := t.epes[e].source;
    var after := Updated(t, e, review, code, was, becomes);
    assert EpeAgrees(t, claimTypes, f);
    if t.epes[f].source == review {
      CountsBoth(t.epes, e, f, review);
    }
    assert after.reviews[t.epes[f].source] == t.reviews[t.epes[f].source];
    assert forall i :: 0 <= i < |t.issues| && after.issues[i].epe == Some(f) ==> after.issues[i] == t.issues[i];
  }

  lemma {:induction false} OneAgreesIff(t: Tables, claimTypes: ClaimTypes, e: nat, code: string, was: ClaimType)
    requires e < |t.epes| && Agree(t, claimTypes)
    requires t.epes[e].source < |t.reviews| && code in claimTypes && t.epes[e].code in claimTypes
    ensures EpeAgrees(Updated(t, e, t.epes[e].source, code, was, claimTypes[code]), claimTypes, e)
      <==> NothingMissed(HasIssues(t, e), claimTypes[t.epes[e].code], was, claimTypes[code])
  {
    var review, now, becomes := t.epes[e].source, claimTypes[t.epes[e].code], claimTypes[code];
    var after := Updated(t, e, review, code, was, becomes);
    var target := after.epes[e].source;
    assert EpeAgrees(t, claimTypes, e);
    assert after.reviews[target].benefit == becomes.benefit <==> (becomes.benefit == was.benefit ==> now.benefit == becomes.benefit);
    forall i | 0 <= i < |t.issues| && t.issues[i].epe == Some(e)
      ensures after.issues[i].epe == Some(e)
      ensures IssueAgrees(after.issues[i], becomes, target) <==> NothingMissed(true, now, was, becomes)
    {
      IssueAgreesIff(t.issues[i], now, was, becomes, review, target);
    }
    assert forall i :: 0 <= i < |t.issues| ==> after.issues[i].epe == t.issues[i].epe;
  }

  /** A successful update keeps codes, issues and reviews in agreement exactly when the original code it was
      given differs from the new one wherever the label really changes. */
  lemma {:induction false} UpdateAgreesIff(t: Tables, claimTypes: ClaimTypes, e: nat, originalCode: string,
                                           newCode: string)
    requires e < |t.epes| && Agree(t, claimTypes)
    requires originalCode in claimTypes && newCode in claimTypes
    ensures EpeAgrees(t, claimTypes, e)
    ensures var was, becomes := claimTypes[originalCode], claimTypes[newCode];
            Agree(Updated(t, e, t.epes[e].source, newCode, was, becomes), claimTypes)
            <==> NothingMissed(HasIssues(t, e), claimTypes[t.epes[e].code], was, becomes)
  {
    var was, becomes := claimTypes[originalCode], claimTypes[newCode];
    assert EpeAgrees(t, claimTypes, e);
    OneAgreesIff(t, claimTypes, e, newCode, was);
    forall f | 0 <= f < |t.epes| && f != e {
      OthersAgree(t, claimTypes, e, newCode, was, becomes, f);
    }
  }

  /** With another original code the issues may be left behind: here they stay rated under a nonrating code. */
  lemma {:induction false} StaleOriginalCode() returns (t: Tables, claimTypes: ClaimTypes)
    ensures |t.epes| == 1 && Agree(t, claimTypes) && EpeAgrees(t, claimTypes, 0) && "030HLRNR" in claimTypes
    ensures var was := claimTypes["030HLRNR"]; !Agree(Updated(t, 0, t.epes[0].source, "030HLRNR", was, was), claimTypes)
  {
    claimTypes := map["030HLRR" := ClaimType("compensation", Rating, None), "030HLRNR" := ClaimType("compensation", Nonrating, None)];
    t := Tables([Review(0, "compensation")], [Epe("030HLRR", 0)],
                [Issue(Some(0), 0, true, "compensation", None, None, None, None, Some("knee"))]);
    assert EpeAgrees(t, claimTypes, 0);
    assert t.issues[0].epe == Some(0) && HasIssues(t, 0);
    UpdateAgreesIff(t, claimTypes, 0, "030HLRNR", "030HLRNR");
  }

  /** With the code the end product has, as the claim review page sends it, agreement is always kept. */
  lemma {:induction false} UpdateAgrees(t: Tables, claimTypes: ClaimTypes, e: nat, newCode: string)
    requires e < |t.epes| && Agree(t, claimTypes) && newCode in claimTypes
    ensures EpeAgrees(t, claimTypes, e)
    ensures Agree(Updated(t, e, t.epes[e].source, newCode, claimTypes[t.epes[e].code], claimTypes[newCode]), claimTypes)
  {
    assert EpeAgrees(t, claimTypes, e);
    UpdateAgreesIff(t, claimTypes, e, t.epes[e].code, newCode);
  }

  ghost predicate SharesReview(epes: seq<Epe>, e: nat)
    requires e < |epes|
  {
    exists f :: 0 <= f < |epes| && f != e && epes[f].source == epes[e].source
  }

  lemma {:induction false} CountsNone(epes: seq<Epe>, review: nat)
    requires forall f :: 0 <= f < |epes| ==> epes[f].source != review
    ensures SourceCount(epes, review) == 0
  {
    if epes != [] {
      CountsNone(epes[..|epes| - 1], review);
    }
  }

  lemma {:induction false} CountsAlone(epes: seq<Epe>, e: nat)
    requires e < |epes| && !SharesReview(epes, e)
    ensures SourceCount(epes, epes[e].source) == 1
  {
    var n := |epes| - 1;
    if e < n {
      assert forall f :: 0 <= f < n ==> epes[..n][f] == epes[f];
      CountsAlone(epes[..n], e);
    } else {
      CountsNone(epes[..n], epes[e].source);
    }
  }

  /** When the benefit type changes, an end product that shares its review moves to one that differs in the
      benefit type only, and the shared review stays as it is; otherwise the review changes with it. */
  lemma {:induction false} SplitsWhenShared(t: Tables, e: nat, code: string, was: ClaimType, becomes: ClaimType)
    requires e < |t.epes| && t.epes[e].source < |t.reviews|
    requires t.reviews[t.epes[e].source].benefit == was.benefit != becomes.benefit
    ensures var review := t.epes[e].source;
            var stream := t.reviews[review].(benefit := becomes.benefit);
            var after := Updated(t, e, review, code, was, becomes);
            var source := after.epes[e].source;
            && source < |after.reviews| && after.reviews[source] == stream
            && if SharesReview(t.epes, e) then source != review && after.reviews[review] == t.reviews[review]
               else source == review && after.reviews == t.reviews[review := stream]
  {
    if SharesReview(t.epes, e) {
      var f :| 0 <= f < |t.epes| && f != e && t.epes[f].source == t.epes[e].source;
      CountsBoth(t.epes, e, f, t.epes[e].source);
    } else {
      CountsAlone(t.epes, e);
    }
  }

  // ---- Nothing else changes ---------------------------------------------------------------------------

  /** No issue is lost, added or taken from another end product, and only this end product, its issues and at
      most one review change. */
  lemma {:induction false} UpdateFrame(t: Tables, e: nat, review: nat, code: string, was: ClaimType, becomes: ClaimType)
    requires e < |t.epes| && review < |t.reviews|
    ensures var after := Updated(t, e, review, code, was, becomes);
            && |after.issues| == |t.issues| && |after.epes| == |t.epes|
            && (forall i :: 0 <= i < |t.issues| ==> after.issues[i].epe == t.issues[i].epe)
            && (forall i :: 0 <= i < |t.issues| && t.issues[i].epe != Some(e) ==> after.issues[i] == t.issues[i])
            && (forall f :: 0 <= f < |t.epes| && f != e ==> after.epes[f] == t.epes[f])
            && |t.reviews| <= |after.reviews| <= |t.reviews| + 1
            && (forall r :: 0 <= r < |t.reviews| && r != review ==> after.reviews[r] == t.reviews[r])
            && (Splits(t, review, was, becomes) ==> after.reviews[review] == t.reviews[review])
            && (after.reviews != t.reviews && after.reviews[review] == t.reviews[review] ==> Splits(t, review, was, becomes))
  {
  }

  /** Two end products split off one review for the same benefit type end on the same review. */
  lemma {:induction false} SameStream(t: Tables, e: nat, f: nat, review: nat, code: string, other: string,
                                      was: ClaimType, becomes: ClaimType)
    requires e < |t.epes| && f < |t.epes| && e != f && review < |t.reviews|
    requires Splits(t, review, was, becomes)
    ensures var once := Updated(t, e, review, code, was, becomes);
            Splits(once, review, was, becomes) ==>
              && Updated(once, f, review, other, was, becomes).epes[f].source == once.epes[e].source
              && Updated(once, f, review, other, was, becomes).reviews == once.reviews
  {
    var stream := t.reviews[review].(benefit := becomes.benefit);
    var once := Updated(t, e, review, code, was, becomes);
    if stream !in t.reviews {
      FindAppended(t.reviews, stream);
    }
  }

  lemma {:induction false} FindAppended(reviews: seq<Review>, stream: Review)
    requires stream !in reviews
    ensures FindStream(reviews, stream) == FindStream(reviews + [stream], stream) == |reviews|
  {
    if reviews != [] {
      FindAppended(reviews[1..], stream);
      assert (reviews + [stream])[1..] == reviews[1..] + [stream];
    }
  }

  // ---- Runs -------------------------------------------------------------------------------------------

  /** An update sent from the page of the review the end product belongs to. */
  datatype Edit = Edit(epe: nat, newCode: string, accepted: bool)

  function Step(claimTypes: ClaimTypes, t: Tables, edit: Edit): Tables {
    if edit.epe < |t.epes| && t.epes[edit.epe].source < |t.reviews| && edit.accepted
       && t.epes[edit.epe].code in claimTypes && edit.newCode in claimTypes
    then Updated(t, edit.epe, t.epes[edit.epe].source, edit.newCode, claimTypes[t.epes[edit.epe].code], claimTypes[edit.newCode])
    else t
  }

  function Run(claimTypes: ClaimTypes, t: Tables, edits: seq<Edit>): Tables {
    if edits == [] then t else Step(claimTypes, Run(claimTypes, t, edits[..|edits| - 1]), edits[|edits| - 1])
  }

  /** Over any run of edits, successful or not, labels, issues and reviews stay in agreement and every issue
      stays with its end product. */
  lemma {:induction false} RunAgrees(claimTypes: ClaimTypes, t: Tables, edits: seq<Edit>)
    requires Agree(t, claimTypes)
    ensures Agree(Run(claimTypes, t, edits), claimTypes)
    ensures var after := Run(claimTypes, t, edits);
            && |after.epes| == |t.epes| && |after.issues| == |t.issues|
            && forall i :: 0 <= i < |t.issues| ==> after.issues[i].epe == t.issues[i].epe
  {
    if edits != [] {
      var before, edit := Run(claimTypes, t, edits[..|edits| - 1]), edits[|edits| - 1];
      RunAgrees(claimTypes, t, edits[..|edits| - 1]);
      if Step(claimTypes, before, edit) != before {
        UpdateAgrees(before, claimTypes, edit.epe, edit.newCode);
        UpdateFrame(before, edit.epe, before.epes[edit.epe].source, edit.newCode,
                    claimTypes[before.epes[edit.epe].code], claimTypes[edit.newCode]);
      }
    }
  }
}
