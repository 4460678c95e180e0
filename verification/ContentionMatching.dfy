/** What the greedy text match of `create_contentions!` guarantees. */
module ContentionMatching {
  import opened Prelude
  import opened EndProductEstablishments

  // ---- Which records change --------------------------------------------------------------------

  /** `after` is `before`, or it waited and now carries an unknown returned id of its own text. */
  ghost predicate Matched(before: Record, after: Record, known: set<nat>, claim: Option<nat>, list: seq<Returned>) {
    || after == before
    || (&& Waiting(before)
        && exists c :: c in list && c.id !in known && Some(c.claim) == claim && c.text == before.text
             && after == before.(contention := Some(c.id)))
  }

  /** Ids already assigned never change, and new ones come from the list with the right claim and text. */
  lemma {:induction false} MatchAllOnlyFillsWaiting(records: seq<Record>, known: set<nat>, claim: Option<nat>,
                                                    list: seq<Returned>)
    ensures var after := MatchAll(records, known, claim, list);
            forall i :: 0 <= i < |records| ==> Matched(records[i], after[i], known, claim, list)
  {
    if list != [] {
      var n := |list| - 1;
      MatchAllOnlyFillsWaiting(records, known, claim, list[..n]);
      var middle := MatchAll(records, known, claim, list[..n]);
      var after := MatchAll(records, known, claim, list);
      forall i | 0 <= i < |records|
        ensures Matched(records[i], after[i], known, claim, list)
      {
        assert Matched(records[i], middle[i], known, claim, list[..n]);
        if after[i] != middle[i] {
          assert list[n] in list && middle[i] == records[i];
        }
      }
    }
  }

  /** The returned contention at `p` went to this record. */
  predicate TakenBy(after: Record, list: seq<Returned>, p: nat) {
    p < |list| && after.contention == Some(list[p].id)
  }

  lemma {:induction false} TakenByOne(before: Record, after: Record, known: set<nat>, claim: Option<nat>, list: seq<Returned>)
    requires Matched(before, after, known, claim, list) && Waiting(before) && after.contention.Some?
    ensures exists p :: TakenBy(after, list, p)
  {
    var c :| c in list && after == before.(contention := Some(c.id));
    var p :| 0 <= p < |list| && list[p] == c;
    assert TakenBy(after, list, p);
  }

  /** Records waiting with the same text are served in their order, with contentions in the order of the answer. */
  lemma {:induction false} MatchAllInOrder(records: seq<Record>, known: set<nat>, claim: Option<nat>,
                                           list: seq<Returned>, i: nat, j: nat) returns (p: nat, q: nat)
    requires i < j < |records| && Waiting(records[i]) && Waiting(records[j]) && records[i].text == records[j].text
    requires MatchAll(records, known, claim, list)[j].contention.Some?
    ensures p < q && TakenBy(MatchAll(records, known, claim, list)[i], list, p)
    ensures TakenBy(MatchAll(records, known, claim, list)[j], list, q)
  {
    var n := |list| - 1;
    var middle := MatchAll(records, known, claim, list[..n]);
    MatchAllOnlyFillsWaiting(records, known, claim, list[..n]);
    assert Matched(records[i], middle[i], known, claim, list[..n]);
    if middle[j].contention.Some? {
      p, q := MatchAllInOrder(records, known, claim, list[..n], i, j);
    } else {
      assert Matched(records[j], middle[j], known, claim, list[..n]);
      assert middle[i].contention.Some?;
      TakenByOne(records[i], middle[i], known, claim, list[..n]);
      p :| TakenBy(middle[i], list[..n], p);
      q := n;
    }
  }

  // ---- Distinct ids ----------------------------------------------------------------------------

  predicate DistinctIds(records: seq<Record>) {
    forall i, j :: 0 <= i < j < |records| && records[i].contention.Some? ==>
      records[i].contention != records[j].contention
  }

  predicate DistinctReturned(list: seq<Returned>) {
    forall i, j :: 0 <= i < j < |list| ==> list[i].id != list[j].id
  }

  /** A returned id goes to at most one record, so ids stay pairwise distinct. */
  lemma {:induction false} MatchAllKeepsIdsDistinct(records: seq<Record>, claim: Option<nat>, list: seq<Returned>)
    requires DistinctIds(records) && DistinctReturned(list)
    ensures DistinctIds(MatchAll(records, Known(records), claim, list))
  {
    if list != [] {
      var n, known := |list| - 1, Known(records);
      MatchAllKeepsIdsDistinct(records, claim, list[..n]);
      MatchAllOnlyFillsWaiting(records, known, claim, list[..n]);
      var middle := MatchAll(records, known, claim, list[..n]);
      forall i | 0 <= i < |records| && list[n].id !in known
        ensures middle[i].contention != Some(list[n].id)
      {
        assert Matched(records[i], middle[i], known, claim, list[..n]);
        assert records[i].contention != Some(list[n].id);
      }
    }
  }

  // ---- When the match succeeds -----------------------------------------------------------------

  function WaitingCount(records: seq<Record>, text: Option<string>): nat {
    if records == [] then 0
    else (if Waiting(records[0]) && records[0].text == text then 1 else 0) + WaitingCount(records[1..], text)
  }

  predicate Fresh(c: Returned, known: set<nat>, claim: Option<nat>, text: Option<string>) {
    c.id !in known && Some(c.claim) == claim && c.text == text
  }

  /** Returned contentions of the claim, unknown beforehand, with this text. */
  function FreshCount(list: seq<Returned>, known: set<nat>, claim: Option<nat>, text: Option<string>): nat {
    if list == [] then 0
    else
      var n := |list| - 1;
      FreshCount(list[..n], known, claim, text) + if Fresh(list[n], known, claim, text) then 1 else 0
  }

  lemma {:induction false} FillOne(records: seq<Record>, k: nat, id: nat, text: Option<string>)
    requires k < |records| && Waiting(records[k])
    ensures WaitingCount(records[k := records[k].(contention := Some(id))], text)
         == WaitingCount(records, text) - if records[k].text == text then 1 else 0
  {
    var after := records[k := records[k].(contention := Some(id))];
    if k > 0 {
      FillOne(records[1..], k - 1, id, text);
      assert after[1..] == records[1..][k - 1 := records[1..][k - 1].(contention := Some(id))];
    } else {
      assert after[1..] == records[1..];
    }
  }

  lemma {:induction false} WaitingCountZero(records: seq<Record>, text: Option<string>)
    ensures WaitingCount(records, text) == 0 <==> FirstWaiting(records, text) == |records|
  {
    if records != [] {
      WaitingCountZero(records[1..], text);
    }
  }

  /** Every fresh contention takes one waiting record of its text, while there is one. */
  lemma {:induction false} WaitingAfterMatch(records: seq<Record>, known: set<nat>, claim: Option<nat>,
                                             list: seq<Returned>, text: Option<string>)
    ensures var waiting, unknown := WaitingCount(records, text), FreshCount(list, known, claim, text);
            WaitingCount(MatchAll(records, known, claim, list), text) == if unknown <= waiting then waiting - unknown else 0
  {
    if list != [] {
      var n := |list| - 1;
      var c := list[n];
      WaitingAfterMatch(records, known, claim, list[..n], text);
      var middle := MatchAll(records, known, claim, list[..n]);
      WaitingCountZero(middle, c.text);
      var k := FirstWaiting(middle, c.text);
      if k < |middle| && c.id !in known && Some(c.claim) == claim {
        FillOne(middle, k, c.id, text);
      }
    }
  }

  lemma {:induction false} ReadyIsEmpty(records: seq<Record>)
    ensures Ready(records) == [] <==> forall i :: 0 <= i < |records| ==> !Waiting(records[i])
  {
    if records != [] {
      ReadyIsEmpty(records[1..]);
      assert forall i :: 1 <= i < |records| ==> records[i] == records[1..][i - 1];
      assert forall i :: 0 <= i < |records| - 1 ==> records[1..][i] == records[i + 1];
    }
  }

  function WaitingAt(records: seq<Record>, text: Option<string>): set<nat> {
    set k | 0 <= k < |records| && records[k].active && records[k].contention.None? && records[k].text == text
  }

  lemma {:induction false} WaitingAtOneMore(records: seq<Record>, r: Record, text: Option<string>)
    ensures |WaitingAt(records + [r], text)|
         == |WaitingAt(records, text)| + if r.active && r.contention.None? && r.text == text then 1 else 0
  {
    var more, before, after := records + [r], WaitingAt(records, text), WaitingAt(records + [r], text);
    assert forall k :: 0 <= k < |records| ==> more[k] == records[k];
    assert |records| !in before;
    if r.active && r.contention.None? && r.text == text {
      assert after == before + {|records|};
    } else {
      assert after == before;
    }
  }

  lemma {:induction false} RequestedOneMore(claim: nat, records: seq<Record>, r: Record)
    ensures Requested(claim, Ready(records + [r]))
         == Requested(claim, Ready(records)) + if Waiting(r) then [Contention(claim, r.text)] else []
  {
    ReadyOfConcat(records, [r]);
    assert Ready([r]) == if Waiting(r) then [r] else [];
    RequestedOfConcat(claim, Ready(records), Ready([r]));
  }

  /** A text is asked for as often as active records without a contention have it. */
  lemma {:induction false} RequestedCount(claim: nat, records: seq<Record>, text: Option<string>)
    ensures multiset(Requested(claim, Ready(records)))[Contention(claim, text)] == |WaitingAt(records, text)|
  {
    if records == [] {
      assert WaitingAt(records, text) == {};
    } else {
      var n := |records| - 1;
      RequestedCount(claim, records[..n], text);
      RequestedOneMore(claim, records[..n], records[n]);
      WaitingAtOneMore(records[..n], records[n], text);
      assert records == records[..n] + [records[n]];
    }
  }

  lemma {:induction false} ReadyOfConcat(s: seq<Record>, t: seq<Record>)
    ensures Ready(s + t) == Ready(s) + Ready(t)
  {
    if s == [] {
      assert s + t == t;
    } else {
      ReadyOfConcat(s[1..], t);
      assert (s + t)[1..] == s[1..] + t;
    }
  }

  lemma {:induction false} RequestedOfConcat(claim: nat, s: seq<Record>, t: seq<Record>)
    ensures Requested(claim, s + t) == Requested(claim, s) + Requested(claim, t)
  {
  }

  /** With a complete answer the step succeeds exactly when the answer holds, for every text, at least
      as many fresh contentions as there are records waiting with that text. */
  lemma {:induction false} CreateContentionsSucceedsIff(epe: Epe, a: Attempt, contentions: seq<Contention>)
    requires epe.claim.Some?
    requires a.contentionReply.Answered? && |a.contentionReply.list| <= a.contentionReply.handled
    ensures CreateContentions(epe, a, contentions).2 == Done <==>
      forall text :: WaitingCount(epe.records, text)
                  <= FreshCount(a.contentionReply.list, Known(epe.records), epe.claim, text)
  {
    var list, known := a.contentionReply.list, Known(epe.records);
    var matched := MatchAll(epe.records, known, epe.claim, list);
    ReadyIsEmpty(epe.records);
    ReadyIsEmpty(matched);
    forall text
      ensures FirstWaiting(matched, text) == |matched|
         <==> WaitingCount(epe.records, text) <= FreshCount(list, known, epe.claim, text)
      ensures FirstWaiting(epe.records, text) == |epe.records| <==> WaitingCount(epe.records, text) == 0
    {
      WaitingAfterMatch(epe.records, known, epe.claim, list, text);
      WaitingCountZero(matched, text);
      WaitingCountZero(epe.records, text);
    }
    if Ready(epe.records) == [] {
      assert forall text :: WaitingCount(epe.records, text) == 0 by {
        assert forall text :: FirstWaiting(epe.records, text) == |epe.records|;
      }
    } else if Ready(matched) == [] {
      assert forall text :: FirstWaiting(matched, text) == |matched|;
    } else {
      var i :| 0 <= i < |matched| && Waiting(matched[i]);
      var text := matched[i].text;
      assert FirstWaiting(matched, text) < |matched|;
      assert WaitingCount(epe.records, text) > FreshCount(list, known, epe.claim, text);
    }
  }

  // ---- The claim system answers with everything on the claim -------------------------------------

  /** The answer lists the contentions of the claim, each once and as stored. */
  ghost predicate Honest(list: seq<Returned>, claim: nat, contentions: seq<Contention>) {
    && DistinctReturned(list)
    && (forall c :: c in list ==> c.claim == claim && c.id < |contentions| && contentions[c.id] == Contention(c.claim, c.text))
    && forall id :: 0 <= id < |contentions| && contentions[id].claim == claim ==>
         Returned(id, claim, contentions[id].text) in list
  }

  /** The ids, counted from `base`, given to the ready records with this text. */
  function Places(ready: seq<Record>, text: Option<string>, base: nat): (ids: set<nat>)
    ensures forall id :: id in ids ==> base <= id < base + |ready| && ready[id - base].text == text
  {
    if ready == [] then {}
    else (if ready[0].text == text then {base} else {}) + Places(ready[1..], text, base + 1)
  }

  lemma {:induction false} PlacesCount(records: seq<Record>, text: Option<string>, base: nat)
    ensures |Places(Ready(records), text, base)| == WaitingCount(records, text)
  {
    if records != [] {
      if Waiting(records[0]) {
        PlacesCount(records[1..], text, base + 1);
        assert Ready(records)[1..] == Ready(records[1..]);
      } else {
        PlacesCount(records[1..], text, base);
        assert Ready(records) == Ready(records[1..]);
      }
    }
  }

  lemma {:induction false} FreshCountAtLeast(list: seq<Returned>, known: set<nat>, claim: Option<nat>,
                                             text: Option<string>, ids: set<nat>)
    requires forall id :: id in ids ==> exists c :: c in list && c.id == id && Fresh(c, known, claim, text)
    ensures |ids| <= FreshCount(list, known, claim, text)
  {
    if list == [] {
      assert ids == {};
    } else {
      var n := |list| - 1;
      var fewer := ids - {list[n].id};
      forall id | id in fewer
        ensures exists c :: c in list[..n] && c.id == id && Fresh(c, known, claim, text)
      {
        var c :| c in list && c.id == id && Fresh(c, known, claim, text);
        assert c in list[..n];
      }
      if list[n].id in ids && !Fresh(list[n], known, claim, text) {
        var c :| c in list && c.id == list[n].id && Fresh(c, known, claim, text);
        assert c in list[..n];
        FreshCountAtLeast(list[..n], known, claim, text, ids);
      } else {
        FreshCountAtLeast(list[..n], known, claim, text, fewer);
        assert ids == fewer || ids == fewer + {list[n].id};
      }
    }
  }

  /** An honest answer holds a fresh contention for every waiting record. */
  lemma {:induction false} HonestAnswerCovers(epe: Epe, list: seq<Returned>, contentions: seq<Contention>,
                                              text: Option<string>)
    requires epe.claim.Some?
    requires forall id :: id in Known(epe.records) ==> id < |contentions|
    requires Honest(list, epe.claim.value, contentions + Requested(epe.claim.value, Ready(epe.records)))
    ensures WaitingCount(epe.records, text) <= FreshCount(list, Known(epe.records), epe.claim, text)
  {
    var ready, base := Ready(epe.records), |contentions|;
    var created := contentions + Requested(epe.claim.value, ready);
    var ids := Places(ready, text, base);
    PlacesCount(epe.records, text, base);
    forall id | id in ids
      ensures exists c :: c in list && c.id == id && Fresh(c, Known(epe.records), epe.claim, text)
    {
      assert created[id] == Contention(epe.claim.value, ready[id - base].text);
      var c := Returned(id, epe.claim.value, text);
      assert c in list && Fresh(c, Known(epe.records), epe.claim, text);
    }
    FreshCountAtLeast(list, Known(epe.records), epe.claim, text, ids);
  }

  /** A claim system that answers honestly never makes the step fail, whatever earlier attempts left
      behind: duplicate texts and orphaned contentions included. */
  lemma {:induction false} HonestAnswerSucceeds(epe: Epe, a: Attempt, contentions: seq<Contention>)
    requires epe.claim.Some?
    requires forall id :: id in Known(epe.records) ==> id < |contentions|
    requires a.contentionReply.Answered? && |a.contentionReply.list| <= a.contentionReply.handled
    requires Honest(a.contentionReply.list, epe.claim.value,
                    contentions + Requested(epe.claim.value, Ready(epe.records)))
    ensures CreateContentions(epe, a, contentions).2 == Done
  {
    var list := a.contentionReply.list;
    forall text
      ensures WaitingCount(epe.records, text) <= FreshCount(list, Known(epe.records), epe.claim, text)
    {
      HonestAnswerCovers(epe, list, contentions, text);
    }
    CreateContentionsSucceedsIff(epe, a, contentions);
  }
}
