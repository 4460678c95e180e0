/** Grouping of legacy appeals into series: parent search, tree inversion, labelling and merging. Nodes
    are known by their position in the list of appeals. */
module AppealHistories {
  import opened Prelude
  import opened MergeStrings
  import opened Forests

  datatype Appeal = Appeal(
    vacolsId: string, original: bool, decisionDate: Option<Date>, priorDecisionDate: Option<Date>,
    categories: set<string>, merged: bool, notes: seq<Option<string>>)

  // ---- Parent search -------------------------------------------------------------------------------

  predicate Suffixed(a: Appeal) {
    a.vacolsId != "" && a.vacolsId[|a.vacolsId| - 1] in ['B', 'W', 'P']
  }

  /** The first appeal with this id. */
  function FindById(appeals: seq<Appeal>, id: string): (r: Option<nat>)
    ensures r.Some? ==> r.value < |appeals| && appeals[r.value].vacolsId == id
    ensures r.Some? ==> forall i :: 0 <= i < r.value ==> appeals[i].vacolsId != id
    ensures r.None? ==> forall i :: 0 <= i < |appeals| ==> appeals[i].vacolsId != id
  {
    if appeals == [] then None
    else if appeals[0].vacolsId == id then Some(0)
    else
      var rest := FindById(appeals[1..], id);
      if rest.None? then None else Some(rest.value + 1)
  }

  lemma {:induction false} FindByIdIff(appeals: seq<Appeal>, id: string, p: nat)
    ensures FindById(appeals, id) == Some(p) <==>
      p < |appeals| && appeals[p].vacolsId == id && forall j :: 0 <= j < p ==> appeals[j].vacolsId != id
  {
    var found := FindById(appeals, id);
    assert found.Some? ==> appeals[found.value].vacolsId == id;
  }

  /** The appeals decided on this date, in order. */
  function DecidedOn(appeals: seq<Appeal>, date: Date, n: nat): (r: seq<nat>)
    requires n <= |appeals|
    ensures forall i :: i in r <==> 0 <= i < n && appeals[i].decisionDate == Some(date)
  {
    if n == 0 then []
    else DecidedOn(appeals, date, n - 1) + if appeals[n - 1].decisionDate == Some(date) then [n - 1] else []
  }

  /** Those that share an issue category with the appeal, in order. */
  function Sharing(appeals: seq<Appeal>, a: Appeal, candidates: seq<nat>): (r: seq<nat>)
    requires forall i :: 0 <= i < |candidates| ==> candidates[i] < |appeals|
    ensures forall i :: i in r <==> i in candidates && appeals[i].categories * a.categories != {}
  {
    if candidates == [] then []
    else
      var rest := Sharing(appeals, a, candidates[1..]);
      if appeals[candidates[0]].categories * a.categories != {} then [candidates[0]] + rest else rest
  }

  function FindByDateAndIssues(appeals: seq<Appeal>, a: Appeal): (r: Option<nat>)
    ensures r.Some? ==> && r.value < |appeals| && a.priorDecisionDate.Some?
                        && appeals[r.value].decisionDate == a.priorDecisionDate
                        && (a.decisionDate.Some? ==> Ordinal(a.priorDecisionDate.value) < Ordinal(a.decisionDate.value))
  {
    if a.priorDecisionDate.None? then None
    else if a.decisionDate.Some? && Ordinal(a.priorDecisionDate.value) >= Ordinal(a.decisionDate.value) then None
    else
      var byDate := DecidedOn(appeals, a.priorDecisionDate.value, |appeals|);
      if |byDate| == 1 then assert byDate[0] in byDate; Some(byDate[0])
      else
        assert forall i :: 0 <= i < |byDate| ==> byDate[i] in byDate;
        var byIssue := Sharing(appeals, a, byDate);
        if |byIssue| == 1 then assert byIssue[0] in byIssue; Some(byIssue[0]) else None
  }

  predicate NoneTwice(s: seq<nat>) {
    forall i, j :: 0 <= i < j < |s| ==> s[i] != s[j]
  }

  lemma {:induction false} DecidedOnOnce(appeals: seq<Appeal>, date: Date, n: nat)
    requires n <= |appeals|
    ensures NoneTwice(DecidedOn(appeals, date, n))
  {
    if n > 0 {
      DecidedOnOnce(appeals, date, n - 1);
      var fewer := DecidedOn(appeals, date, n - 1);
      assert forall k :: 0 <= k < |fewer| ==> fewer[k] in fewer;
    }
  }

  lemma {:induction false} SharingOnce(appeals: seq<Appeal>, a: Appeal, candidates: seq<nat>)
    requires NoneTwice(candidates) && forall i :: 0 <= i < |candidates| ==> candidates[i] < |appeals|
    ensures NoneTwice(Sharing(appeals, a, candidates))
  {
    if candidates != [] {
      SharingOnce(appeals, a, candidates[1..]);
      var rest := Sharing(appeals, a, candidates[1..]);
      assert forall k :: 0 <= k < |rest| ==> rest[k] in rest;
    }
  }

  /** Decided on the prior decision date of `a`. */
  predicate Candidate(appeals: seq<Appeal>, a: Appeal, i: nat) {
    i < |appeals| && a.priorDecisionDate.Some? && appeals[i].decisionDate == a.priorDecisionDate
  }

  predicate SharesCategory(appeals: seq<Appeal>, a: Appeal, i: nat)
    requires i < |appeals|
  {
    appeals[i].categories * a.categories != {}
  }

  ghost predicate OnlyCandidate(appeals: seq<Appeal>, a: Appeal, i: nat) {
    Candidate(appeals, a, i) && forall j: nat :: Candidate(appeals, a, j) ==> j == i
  }

  ghost predicate OnlySharing(appeals: seq<Appeal>, a: Appeal, i: nat) {
    && Candidate(appeals, a, i) && SharesCategory(appeals, a, i)
    && forall j: nat :: Candidate(appeals, a, j) && SharesCategory(appeals, a, j) ==> j == i
  }

  lemma {:induction false} OneMember(s: seq<nat>, x: nat)
    requires NoneTwice(s)
    ensures s == [x] <==> x in s && forall y :: y in s ==> y == x
  {
    assert |s| > 0 ==> s[0] in s;
    assert |s| > 1 ==> s[1] in s && s[0] != s[1];
  }

  lemma {:induction false} ByDateIs(appeals: seq<Appeal>, a: Appeal, i: nat)
    requires a.priorDecisionDate.Some?
    ensures DecidedOn(appeals, a.priorDecisionDate.value, |appeals|) == [i] <==> OnlyCandidate(appeals, a, i)
  {
    var byDate := DecidedOn(appeals, a.priorDecisionDate.value, |appeals|);
    DecidedOnOnce(appeals, a.priorDecisionDate.value, |appeals|);
    OneMember(byDate, i);
    assert forall j: nat :: j in byDate <==> Candidate(appeals, a, j);
  }

  lemma {:induction false} ByIssueIs(appeals: seq<Appeal>, a: Appeal, byDate: seq<nat>, i: nat)
    requires a.priorDecisionDate.Some? && byDate == DecidedOn(appeals, a.priorDecisionDate.value, |appeals|)
    requires forall k :: 0 <= k < |byDate| ==> byDate[k] < |appeals|
    ensures Sharing(appeals, a, byDate) == [i] <==> OnlySharing(appeals, a, i)
  {
    var byIssue := Sharing(appeals, a, byDate);
    DecidedOnOnce(appeals, a.priorDecisionDate.value, |appeals|);
    SharingOnce(appeals, a, byDate);
    OneMember(byIssue, i);
    assert forall j: nat :: j in byIssue <==> Candidate(appeals, a, j) && SharesCategory(appeals, a, j);
  }

  /** The appeal found is the only one decided on the prior date, or the only one of those that shares a
      category, and it is found whenever it exists; nothing is found when the prior date is not earlier. */
  lemma {:induction false} FoundByDateIff(appeals: seq<Appeal>, a: Appeal, i: nat)
    ensures FindByDateAndIssues(appeals, a) == Some(i) <==>
      && (OnlyCandidate(appeals, a, i) || OnlySharing(appeals, a, i))
      && (a.decisionDate.Some? ==> Ordinal(a.priorDecisionDate.value) < Ordinal(a.decisionDate.value))
  {
    if a.priorDecisionDate.Some? {
      var byDate := DecidedOn(appeals, a.priorDecisionDate.value, |appeals|);
      assert forall k :: 0 <= k < |byDate| ==> byDate[k] in byDate;
      ByDateIs(appeals, a, i);
      ByIssueIs(appeals, a, byDate, i);
      var byIssue := Sharing(appeals, a, byDate);
      assert byIssue == [i] ==> i in byIssue && i in byDate;
      assert |byDate| == 1 ==> byDate == [byDate[0]];
      assert |byIssue| == 1 ==> byIssue == [byIssue[0]];
    }
  }

  function ParentOf(appeals: seq<Appeal>, i: nat): (r: Option<nat>)
    requires i < |appeals|
    ensures r.Some? ==> r.value < |appeals|
  {
    var a := appeals[i];
    if a.original then None
    else if Suffixed(a) then FindById(appeals, a.vacolsId[..|a.vacolsId| - 1])
    else FindByDateAndIssues(appeals, a)
  }

  /** The id is that of the other appeal with the letter of a field disposition appended. */
  predicate DerivedFrom(a: Appeal, id: string) {
    a.vacolsId == id + "B" || a.vacolsId == id + "W" || a.vacolsId == id + "P"
  }

  /** An original appeal has no parent; the parent of a derived one is the first appeal of the id it is derived from,
      and any other parent is found by date and issues. */
  lemma {:induction false} ParentIff(appeals: seq<Appeal>, i: nat, p: nat)
    requires i < |appeals|
    ensures var a := appeals[i];
            ParentOf(appeals, i) == Some(p) <==>
              && !a.original && p < |appeals|
              && (if exists id :: DerivedFrom(a, id)
                  then DerivedFrom(a, appeals[p].vacolsId) && forall j :: 0 <= j < p ==> !DerivedFrom(a, appeals[j].vacolsId)
                  else && (OnlyCandidate(appeals, a, p) || OnlySharing(appeals, a, p))
                       && (a.decisionDate.Some? ==> Ordinal(a.priorDecisionDate.value) < Ordinal(a.decisionDate.value)))
  {
    var a := appeals[i];
    var stem := if a.vacolsId == "" then "" else a.vacolsId[..|a.vacolsId| - 1];
    forall id
      ensures DerivedFrom(a, id) <==> Suffixed(a) && id == stem
    {
      assert Suffixed(a) ==> a.vacolsId == stem + [a.vacolsId[|a.vacolsId| - 1]];
    }
    if Suffixed(a) {
      assert DerivedFrom(a, stem);
      FindByIdIff(appeals, stem, p);
    } else {
      FoundByDateIff(appeals, a, p);
    }
  }

  // ---- When the links form a forest --------------------------------------------------------------------

  /** The parent link of every appeal. */
  function Links(appeals: seq<Appeal>): (r: seq<Option<nat>>)
    ensures |r| == |appeals| && Linked(r)
    ensures forall i :: 0 <= i < |r| ==> r[i] == ParentOf(appeals, i)
  {
    seq(|appeals|, i requires 0 <= i < |appeals| => ParentOf(appeals, i))
  }

  function DateRank(a: Appeal): nat { if a.decisionDate.None? then 0 else Ordinal(a.decisionDate.value) }

  /** An appeal recorded under a suffixed id is not decided before the appeal it is derived from. */
  predicate SuffixedNotEarlier(appeals: seq<Appeal>) {
    forall i :: 0 <= i < |appeals| && Suffixed(appeals[i]) && ParentOf(appeals, i).Some? ==>
      var parent := appeals[ParentOf(appeals, i).value];
      appeals[i].decisionDate.Some? ==>
        parent.decisionDate.Some? && Ordinal(parent.decisionDate.value) <= Ordinal(appeals[i].decisionDate.value)
  }

  /** A parent decided earlier, or on the same day under a shorter id. */
  predicate Before(parent: Appeal, child: Appeal) {
    || (parent.decisionDate.Some? && child.decisionDate.None?)
    || (parent.decisionDate.None? == child.decisionDate.None? && DateRank(parent) < DateRank(child))
    || (parent.decisionDate.None? == child.decisionDate.None? && DateRank(parent) == DateRank(child)
        && |parent.vacolsId| < |child.vacolsId|)
  }

  lemma {:induction false} ParentIsBefore(appeals: seq<Appeal>, i: nat)
    requires i < |appeals| && SuffixedNotEarlier(appeals) && ParentOf(appeals, i).Some?
    ensures Before(appeals[ParentOf(appeals, i).value], appeals[i])
  {
  }

  /** Then every parent link leads to an earlier decision, or to a shorter id decided on the same day. */
  lemma {:induction false} LinksEnd(appeals: seq<Appeal>, links: seq<Option<nat>>, i: nat) returns (k: nat)
    requires i < |appeals| == |links| && Linked(links)
    requires forall j :: 0 <= j < |links| && links[j].Some? ==> Before(appeals[links[j].value], appeals[j])
    ensures EndsAfter(links, i, k)
    decreases appeals[i].decisionDate.None?, DateRank(appeals[i]), |appeals[i].vacolsId|
  {
    if links[i].None? {
      k := 0;
    } else {
      var rest := LinksEnd(appeals, links, links[i].value);
      assert Ancestor(links, i, 0) == Some(i);
      AncestorOfAncestor(links, i, 1, rest);
      k := rest + 1;
    }
  }

  lemma {:induction false} ForestWhenSuffixedNotEarlier(appeals: seq<Appeal>)
    requires SuffixedNotEarlier(appeals)
    ensures forall i :: 0 <= i < |appeals| ==> Grounded(Links(appeals), i)
  {
    forall i | 0 <= i < |appeals| && ParentOf(appeals, i).Some?
      ensures Before(appeals[Links(appeals)[i].value], appeals[i])
    {
      ParentIsBefore(appeals, i);
    }
    forall i | 0 <= i < |appeals|
      ensures Grounded(Links(appeals), i)
    {
      var k := LinksEnd(appeals, Links(appeals), i);
    }
  }

  /** Without it the links may run in a circle: an appeal decided in 2005 after a prior decision of 2000,
      and its suffixed record decided on that very day in 2000. */
  lemma {:induction false} LinksMayCircle() returns (appeals: seq<Appeal>)
    ensures |appeals| == 2 && !appeals[0].merged && !appeals[1].merged
    ensures ParentOf(appeals, 0) == Some(1) && ParentOf(appeals, 1) == Some(0)
    ensures !Grounded(Links(appeals), 0) && !Grounded(Links(appeals), 1)
  {
    var early, late := DateParts(2000, 1, 1), DateParts(2005, 1, 1);
    var parent := Appeal("1", false, Some(late), Some(early), {}, false, []);
    var record := Appeal("1B", false, Some(early), None, {}, false, []);
    appeals := [parent, record];
    assert "1B"[..1] == "1";
    assert ParentOf(appeals, 1) == Some(0);
    assert DecidedOn(appeals, early, 1) == [];
    assert DecidedOn(appeals, early, 2) == [1];
    assert ParentOf(appeals, 0) == Some(1);
    forall i, k: nat | 0 <= i < 2
      ensures !EndsAfter(Links(appeals), i, k)
    {
      NeverEnds(Links(appeals), i, k);
    }
  }

  lemma {:induction false} NeverEnds(links: seq<Option<nat>>, i: nat, k: nat)
    requires i < |links| && Linked(links) && forall j :: 0 <= j < |links| ==> links[j].Some?
    ensures Ancestor(links, i, k).Some? && !EndsAfter(links, i, k)
  {
    if k > 0 {
      NeverEnds(links, i, k - 1);
    }
  }

  // ---- Merging -----------------------------------------------------------------------------------------

  /** The appeals that were merged into another one, in order. */
  function MergedAppeals(appeals: seq<Appeal>, n: nat): (r: seq<nat>)
    requires n <= |appeals|
    ensures forall i :: 0 <= i < |r| ==> r[i] < n && appeals[r[i]].merged
    ensures forall i :: 0 <= i < n && appeals[i].merged ==> i in r
  {
    if n == 0 then [] else MergedAppeals(appeals, n - 1) + if appeals[n - 1].merged then [n - 1] else []
  }

  function MergeStringOf(a: Appeal): string { MergeString(a.decisionDate, a.vacolsId) }

  function MergeStringsOf(appeals: seq<Appeal>, merged: seq<nat>): seq<string>
    requires forall i :: 0 <= i < |merged| ==> merged[i] < |appeals|
  {
    seq(|merged|, i requires 0 <= i < |merged| => MergeStringOf(appeals[merged[i]]))
  }

  predicate Includes(s: string, part: string) {
    exists k :: 0 <= k <= |s| && part <= s[k..]
  }

  predicate Mentions(a: Appeal, part: string) {
    exists k :: 0 <= k < |a.notes| && a.notes[k].Some? && Includes(a.notes[k].value, part)
  }

  /** The appeals whose notes mention this string, in order. */
  function Mentioning(appeals: seq<Appeal>, part: string, n: nat): (r: seq<nat>)
    requires n <= |appeals|
    ensures forall i :: i in r <==> 0 <= i < n && Mentions(appeals[i], part)
    ensures forall i :: 0 <= i < |r| ==> r[i] < n
  {
    if n == 0 then [] else Mentioning(appeals, part, n - 1) + if Mentions(appeals[n - 1], part) then [n - 1] else []
  }

  /** The one appeal that mentions the string, if there is exactly one. */
  function FindMergeTarget(appeals: seq<Appeal>, part: string): (r: Option<nat>)
    ensures r.Some? ==> r.value < |appeals| && Mentions(appeals[r.value], part)
  {
    var matches := Mentioning(appeals, part, |appeals|);
    if |matches| == 1 then assert matches[0] in matches; Some(matches[0]) else None
  }

  /** The note holds the string somewhere. */
  lemma {:induction false} IncludesIff(s: string, part: string)
    ensures Includes(s, part) <==> exists before, after :: s == before + part + after
  {
    if k :| 0 <= k <= |s| && part <= s[k..] {
      assert s == s[..k] + part + s[k..][|part|..];
    }
    if before, after :| s == before + part + after {
      assert s[|before|..] == part + after;
    }
  }

  lemma {:induction false} MentioningOnce(appeals: seq<Appeal>, part: string, n: nat)
    requires n <= |appeals|
    ensures NoneTwice(Mentioning(appeals, part, n))
  {
    if n > 0 {
      MentioningOnce(appeals, part, n - 1);
      var fewer := Mentioning(appeals, part, n - 1);
      assert forall k :: 0 <= k < |fewer| ==> fewer[k] in fewer;
    }
  }

  predicate OnlyMention(appeals: seq<Appeal>, part: string, i: nat) {
    i < |appeals| && Mentions(appeals[i], part) && forall j :: 0 <= j < |appeals| && Mentions(appeals[j], part) ==> j == i
  }

  /** The appeal taken is the only one that mentions the string, and it is taken whenever it exists: with several the
      string has no target. */
  lemma {:induction false} FindMergeTargetIff(appeals: seq<Appeal>, part: string, i: nat)
    ensures FindMergeTarget(appeals, part) == Some(i) <==> OnlyMention(appeals, part, i)
  {
    var matches := Mentioning(appeals, part, |appeals|);
    MentioningOnce(appeals, part, |appeals|);
    OneMember(matches, i);
    assert |matches| == 1 ==> matches == [matches[0]];
    assert i in matches <==> i < |appeals| && Mentions(appeals[i], part);
    assert forall j :: 0 <= j < |appeals| && Mentions(appeals[j], part) <==> j in matches;
  }

  /** A series is known by the label of the tree that gave it; `None` stands for the missing label of an
      appeal that no root leads to. */
  type Label = Option<nat>

  /** The labels of the first trees. */
  function RootLabels(roots: nat): (r: set<Label>)
    ensures forall s :: s in r <==> s.Some? && s.value < roots
  {
    if roots == 0 then {} else RootLabels(roots - 1) + {Some(roots - 1)}
  }

  /** The table from tree labels to series labels after the first `n` merged appeals. */
  function MergeTable(roots: nat, labels: seq<Label>, merged: seq<nat>, targets: seq<Option<nat>>, n: nat): map<Label, Label>
    requires n <= |merged| == |targets|
    requires forall i :: 0 <= i < |merged| ==> merged[i] < |labels|
    requires forall i :: 0 <= i < |targets| && targets[i].Some? ==> targets[i].value < |labels|
  {
    if n == 0 then map s | s in RootLabels(roots) :: s
    else
      var before := MergeTable(roots, labels, merged, targets, n - 1);
      if targets[n - 1].None? then before
      else before[labels[merged[n - 1]] := labels[targets[n - 1].value]]
  }

  /** `series_table[merge_table[label]]`; a label missing from the merge table reads as `None`. */
  function Lookup(table: map<Label, Label>, tag: Label): Option<Label> {
    var series := if tag in table then table[tag] else None;
    if series in table.Values then Some(series) else None
  }

  /** The lookup fails exactly for an appeal without a label when the merge table has no missing label,
      neither as a key nor as a value. */
  lemma {:induction false} LookupFailsIff(roots: nat, labels: seq<Label>, merged: seq<nat>, targets: seq<Option<nat>>,
                                          i: nat)
    requires |merged| == |targets| && i < |labels|
    requires forall i :: 0 <= i < |merged| ==> merged[i] < |labels|
    requires forall i :: 0 <= i < |targets| && targets[i].Some? ==> targets[i].value < |labels|
    requires labels[i].Some? ==> labels[i].value < roots
    ensures var table := MergeTable(roots, labels, merged, targets, |merged|);
            Lookup(table, labels[i]).None? <==> labels[i].None? && None !in table.Keys && None !in table.Values
  {
    TableHasRoots(roots, labels, merged, targets, |merged|);
    var table := MergeTable(roots, labels, merged, targets, |merged|);
    assert labels[i].Some? ==> labels[i] == Some(labels[i].value) && labels[i] in table;
    if labels[i] in table {
      assert table[labels[i]] in table.Values;
    }
  }

  lemma {:induction false} TableHasRoots(roots: nat, labels: seq<Label>, merged: seq<nat>, targets: seq<Option<nat>>,
                                         n: nat)
    requires n <= |merged| == |targets|
    requires forall i :: 0 <= i < |merged| ==> merged[i] < |labels|
    requires forall i :: 0 <= i < |targets| && targets[i].Some? ==> targets[i].value < |labels|
    ensures forall r :: 0 <= r < roots ==> Some(r) in MergeTable(roots, labels, merged, targets, n)
  {
    if n > 0 {
      TableHasRoots(roots, labels, merged, targets, n - 1);
    }
  }

  /** The target of the last merged appeal of a tree that has a target decides where the tree goes. */
  lemma {:induction false} MergedTreeFollowsTarget(roots: nat, labels: seq<Label>, merged: seq<nat>,
                                                   targets: seq<Option<nat>>, m: nat, n: nat)
    requires m < n <= |merged| == |targets| && targets[m].Some?
    requires forall i :: 0 <= i < |merged| ==> merged[i] < |labels|
    requires forall i :: 0 <= i < |targets| && targets[i].Some? ==> targets[i].value < |labels|
    requires forall later :: m < later < n && targets[later].Some? ==> labels[merged[later]] != labels[merged[m]]
    ensures var table := MergeTable(roots, labels, merged, targets, n);
            labels[merged[m]] in table && table[labels[merged[m]]] == labels[targets[m].value]
  {
    if m < n - 1 {
      MergedTreeFollowsTarget(roots, labels, merged, targets, m, n - 1);
    }
  }

  // ---- Generating the series -----------------------------------------------------------------------------

  function Strings(appeals: seq<Appeal>): seq<string> {
    MergeStringsOf(appeals, MergedAppeals(appeals, |appeals|))
  }

  /** The abbreviation of this merge string never ends. */
  predicate Hanging(strs: seq<string>, s: string) {
    |s| < MIN_LENGTH && CountStarting(strs, s) != 1
  }

  /** The one appeal that mentions the string, or none if no appeal is the only one. */
  ghost predicate Mentioned(appeals: seq<Appeal>, part: string, target: Option<nat>) {
    forall i: nat :: target == Some(i) <==> OnlyMention(appeals, part, i)
  }

  /** The one appeal that mentions the shortest unique prefix of the merge string. */
  ghost predicate TargetOf(appeals: seq<Appeal>, strs: seq<string>, s: string, target: Option<nat>) {
    exists length :: StopsFirst(strs, s, length) && Mentioned(appeals, Prefix(s, length), target)
  }

  lemma {:induction false} MentionedIff(appeals: seq<Appeal>, part: string, target: Option<nat>)
    ensures Mentioned(appeals, part, target) <==> target == FindMergeTarget(appeals, part)
  {
    var found := FindMergeTarget(appeals, part);
    forall i: nat
      ensures found == Some(i) <==> OnlyMention(appeals, part, i)
    {
      FindMergeTargetIff(appeals, part, i);
    }
    if Mentioned(appeals, part, target) {
      assert found.Some? ==> target == Some(found.value);
      assert target.Some? ==> found == Some(target.value);
    }
  }

  /** The targets of the first strings. */
  ghost predicate TargetsSoFar(appeals: seq<Appeal>, strs: seq<string>, targets: seq<Option<nat>>) {
    && |targets| <= |strs|
    && forall i :: 0 <= i < |targets| ==>
         (targets[i].Some? ==> targets[i].value < |appeals|) && TargetOf(appeals, strs, strs[i], targets[i])
  }

  ghost predicate Targets(appeals: seq<Appeal>, strs: seq<string>, targets: seq<Option<nat>>) {
    |targets| == |strs| && TargetsSoFar(appeals, strs, targets)
  }

  lemma {:induction false} OneMoreTarget(appeals: seq<Appeal>, strs: seq<string>, targets: seq<Option<nat>>, target: Option<nat>)
    requires TargetsSoFar(appeals, strs, targets) && |targets| < |strs|
    requires (target.Some? ==> target.value < |appeals|) && TargetOf(appeals, strs, strs[|targets|], target)
    ensures TargetsSoFar(appeals, strs, targets + [target])
  {
  }

  method FindTarget(appeals: seq<Appeal>, strs: seq<string>, s: string) returns (target: Option<Option<nat>>)
    ensures target.None? <==> Hanging(strs, s)
    ensures target.Some? ==> TargetOf(appeals, strs, s, target.value)
    ensures target.Some? && target.value.Some? ==> target.value.value < |appeals|
  {
    RunsForeverIff(strs, s);
    var abbreviation := Abbreviate(strs, s);
    target := if abbreviation.None? then None else Some(FindMergeTarget(appeals, abbreviation.value));
    if abbreviation.Some? {
      MentionedIff(appeals, abbreviation.value, target.value);
    }
  }

  /** The target of every merged appeal, or `None` if one of the loops never ends. */
  method FindMergeTargets(appeals: seq<Appeal>, strs: seq<string>) returns (targets: Option<seq<Option<nat>>>)
    ensures targets.None? <==> exists i :: 0 <= i < |strs| && Hanging(strs, strs[i])
    ensures targets.Some? ==> Targets(appeals, strs, targets.value)
  {
    var found: seq<Option<nat>> := [];
    while |found| < |strs|
      invariant |found| <= |strs|
      invariant forall i :: 0 <= i < |found| ==> !Hanging(strs, strs[i])
      invariant TargetsSoFar(appeals, strs, found)
    {
      var target := FindTarget(appeals, strs, strs[|found|]);
      if target.None? {
        return None;
      }
      OneMoreTarget(appeals, strs, found, target.value);
      found := found + [target.value];
    }
    return Some(found);
  }

  /** The target of every merged appeal, if no loop hangs. */
  function MergeTargets(appeals: seq<Appeal>): (r: seq<Option<nat>>)
    ensures |r| == |Strings(appeals)|
    ensures forall m :: 0 <= m < |r| && r[m].Some? ==> r[m].value < |appeals|
  {
    var strs := Strings(appeals);
    seq(|strs|, m requires 0 <= m < |strs| => FindMergeTarget(appeals, Prefix(strs[m], StopFrom(strs, strs[m], MIN_LENGTH))))
  }

  lemma {:induction false} TargetIs(appeals: seq<Appeal>, strs: seq<string>, s: string, target: Option<nat>)
    requires TargetOf(appeals, strs, s, target)
    ensures target == FindMergeTarget(appeals, Prefix(s, StopFrom(strs, s, MIN_LENGTH)))
  {
    var length :| StopsFirst(strs, s, length) && Mentioned(appeals, Prefix(s, length), target);
    StopsFirstAt(strs, s, MIN_LENGTH, length);
    MentionedIff(appeals, Prefix(s, length), target);
  }

  /** A merged appeal goes to the only appeal whose notes mention its merge string cut where the loop stops, and to
      none if several do. */
  lemma {:induction false} MergeTargetIff(appeals: seq<Appeal>, m: nat, length: nat, i: nat)
    requires m < |Strings(appeals)| && StopsFirst(Strings(appeals), Strings(appeals)[m], length)
    ensures MergeTargets(appeals)[m] == Some(i) <==> OnlyMention(appeals, Prefix(Strings(appeals)[m], length), i)
  {
    var strs := Strings(appeals);
    StopsFirstAt(strs, strs[m], MIN_LENGTH, length);
    FindMergeTargetIff(appeals, Prefix(strs[m], length), i);
  }

  lemma {:induction false} TargetsAre(appeals: seq<Appeal>, targets: seq<Option<nat>>)
    requires Targets(appeals, Strings(appeals), targets)
    ensures targets == MergeTargets(appeals)
  {
    var strs := Strings(appeals);
    forall m | 0 <= m < |targets|
      ensures targets[m] == MergeTargets(appeals)[m]
    {
      TargetIs(appeals, strs, strs[m], targets[m]);
    }
  }

  predicate Hangs(appeals: seq<Appeal>) {
    exists i :: 0 <= i < |Strings(appeals)| && Hanging(Strings(appeals), Strings(appeals)[i])
  }

  /** Folder numbers as they come from VACOLS. */
  predicate FoldersDistinct(appeals: seq<Appeal>) {
    && (forall i :: 0 <= i < |appeals| ==> ')' !in appeals[i].vacolsId)
    && forall i, j :: 0 <= i < j < |appeals| ==> appeals[i].vacolsId != appeals[j].vacolsId
  }

  predicate Ascending(s: seq<nat>) {
    forall i, j :: 0 <= i < j < |s| ==> s[i] < s[j]
  }

  lemma {:induction false} MergedAppealsAscend(appeals: seq<Appeal>, n: nat)
    requires n <= |appeals|
    ensures Ascending(MergedAppeals(appeals, n))
  {
    if n > 0 {
      MergedAppealsAscend(appeals, n - 1);
      var fewer := MergedAppeals(appeals, n - 1);
      assert MergedAppeals(appeals, n) == fewer + if appeals[n - 1].merged then [n - 1] else [];
    }
  }

  /** With distinct folder numbers every loop ends, at a prefix that begins no other merge string. */
  lemma {:induction false} DistinctFoldersNeverHang(appeals: seq<Appeal>, i: nat, length: nat)
    requires FoldersDistinct(appeals) && i < |Strings(appeals)|
    ensures var strs := Strings(appeals);
            && !Hanging(strs, strs[i])
            && (StopsFirst(strs, strs[i], length) ==> CountStarting(strs, Prefix(strs[i], length)) == 1)
  {
    var merged := MergedAppeals(appeals, |appeals|);
    MergedAppealsAscend(appeals, |appeals|);
    StringsNeverHang(appeals, merged, Strings(appeals), i, length);
  }

  lemma {:induction false} StringsNeverHang(appeals: seq<Appeal>, merged: seq<nat>, strs: seq<string>, i: nat,
                                            length: nat)
    requires FoldersDistinct(appeals) && |strs| == |merged| && i < |strs|
    requires forall m :: 0 <= m < |merged| ==> merged[m] < |appeals| && strs[m] == MergeStringOf(appeals[merged[m]])
    requires Ascending(merged)
    ensures !Hanging(strs, strs[i])
    ensures StopsFirst(strs, strs[i], length) ==> CountStarting(strs, Prefix(strs[i], length)) == 1
  {
    var dates := seq(|merged|, m requires 0 <= m < |merged| => appeals[merged[m]].decisionDate);
    var folders := seq(|merged|, m requires 0 <= m < |merged| => appeals[merged[m]].vacolsId);
    forall j, k | 0 <= j < k < |folders|
      ensures folders[j] != folders[k]
    {
      assert merged[j] < merged[k] < |appeals|;
    }
    DistinctFoldersAreFound(dates, folders, strs, i, length);
    RunsForeverIff(strs, strs[i]);
  }

  datatype Outcome = Endless | NoMethodError | Done

  datatype Series = Series(mergedCount: nat, incomplete: bool)

  predicate Incomplete(appeals: seq<Appeal>, i: nat)
    requires i < |appeals|
  {
    !appeals[i].original && ParentOf(appeals, i).None?
  }

  function TableFor(appeals: seq<Appeal>, labels: seq<Label>): map<Label, Label>
    requires |labels| == |appeals|
  {
    var merged := MergedAppeals(appeals, |appeals|);
    MergeTable(|RootsOf(Links(appeals), |appeals|)|, labels, merged, MergeTargets(appeals), |merged|)
  }

  /** The first `n` appeals joined the series their label leads to, the others none yet. */
  predicate Joined(labels: seq<Label>, table: map<Label, Label>, joined: seq<Option<Label>>, n: nat)
    requires n <= |labels|
  {
    && |joined| == |labels|
    && (forall i :: 0 <= i < n ==> joined[i].Some? && joined[i] == Lookup(table, labels[i]))
    && forall i :: n <= i < |labels| ==> joined[i].None?
  }

  /** A series for every label the table leads to, incomplete when one of its appeals is. */
  predicate SeriesFor(appeals: seq<Appeal>, table: map<Label, Label>, joined: seq<Option<Label>>, series: map<Label, Series>)
    requires |joined| == |appeals|
  {
    && series.Keys == table.Values
    && forall key :: key in series ==>
         && series[key].mergedCount == |MergedAppeals(appeals, |appeals|)|
         && (series[key].incomplete <==>
              exists i :: 0 <= i < |appeals| && joined[i] == Some(key) && !appeals[i].original && ParentOf(appeals, i).None?)
  }

  /** `needs_update?`, for the series the appeals are in. */
  predicate NeedsUpdate(appeals: seq<Appeal>, joined: seq<Option<Label>>, series: map<Label, Series>)
    requires |joined| == |appeals|
  {
    && appeals != []
    && ((exists i :: 0 <= i < |appeals| && joined[i].None?)
        || (joined[0].Some? && joined[0].value in series
            && |MergedAppeals(appeals, |appeals|)| != series[joined[0].value].mergedCount))
  }

  class AppealHistory {
    const appeals: seq<Appeal>
    /** The series each appeal belongs to, if any. */
    var joined: seq<Option<Label>>
    var series: map<Label, Series>

    method FindParents() returns (parents: seq<Option<nat>>)
      ensures parents == Links(appeals)
    {
      parents := [];
      for i := 0 to |appeals|
        invariant |parents| == i && forall j :: 0 <= j < i ==> parents[j] == ParentOf(appeals, j)
      {
        parents := parents + [ParentOf(appeals, i)];
      }
    }

    method JoinOne(labels: seq<Label>, table: map<Label, Label>, n: nat, key: Label)
      requires |labels| == |appeals| == |joined| && n < |appeals| && Lookup(table, labels[n]) == Some(key)
      requires Joined(labels, table, joined, n) && SeriesFor(appeals, table, joined, series)
      modifies this
      ensures |joined| == |appeals| && Joined(labels, table, joined, n + 1) && SeriesFor(appeals, table, joined, series)
    {
      ghost var was, seriesWas := joined, series;
      joined := joined[n := Some(key)];
      if Incomplete(appeals, n) {
        series := series[key := series[key].(incomplete := true)];
      }
      OneMoreInSeries(appeals, table, was, joined, seriesWas, series, n, key);
    }

    method JoinSeries(labels: seq<Label>, table: map<Label, Label>) returns (ok: bool)
      requires |labels| == |appeals|
      modifies this
      ensures |joined| == |appeals| && SeriesFor(appeals, table, joined, series)
      ensures ok ==> Joined(labels, table, joined, |appeals|)
      ensures !ok ==> exists n :: 0 <= n < |appeals| && Joined(labels, table, joined, n) && Lookup(table, labels[n]).None?
    {
      var mergedCount := |MergedAppeals(appeals, |appeals|)|;
      series := map key | key in table.Values :: Series(mergedCount, false);
      joined := seq(|appeals|, _ => None);
      for n := 0 to |appeals|
        invariant |joined| == |appeals| && Joined(labels, table, joined, n)
        invariant SeriesFor(appeals, table, joined, series)
      {
        var found := Lookup(table, labels[n]);
        if found.None? {
          return false;
        }
        JoinOne(labels, table, n, found.value);
      }
      return true;
    }

    /** Regenerates every series from scratch. */
    method GenerateAppealSeries() returns (outcome: Outcome)
      modifies this
      ensures outcome.Endless? <==> Hangs(appeals)
      ensures outcome.Done? <==> !Hangs(appeals) && Settles(appeals)
      ensures !Hangs(appeals) ==> |joined| == |appeals| && exists labels ::
        Labelled(Links(appeals), labels) && Regenerated(appeals, TableFor(appeals, labels), labels, joined, series, outcome)
      ensures outcome.Done? ==> |joined| == |appeals| && !NeedsUpdate(appeals, joined, series)
      ensures SuffixedNotEarlier(appeals) && FoldersDistinct(appeals) ==> outcome.Done?
    {
      var parents := FindParents();
      var trees := new Trees(parents);
      trees.LabelAll();
      var labels := trees.seriesId;
      var targets := FindMergeTargets(appeals, Strings(appeals));
      FoldersDistinctNeverHang(appeals);
      if targets.None? {
        return Endless;
      }
      TargetsAre(appeals, targets.value);
      var merged := MergedAppeals(appeals, |appeals|);
      var table := MergeTable(|trees.roots|, labels, merged, targets.value, |merged|);
      assert table == TableFor(appeals, labels);
      var ok := JoinSeries(labels, table);
      outcome := if ok then Done else NoMethodError;
      assert Regenerated(appeals, table, labels, joined, series, outcome);
      RegeneratedSettles(appeals, labels, joined, series, outcome);
    }
  }

  lemma {:induction false} OneMoreJoined(appeals: seq<Appeal>, before: seq<Option<Label>>, after: seq<Option<Label>>,
                                         n: nat, key: Label)
    requires n < |appeals| == |before| && before[n].None? && after == before[n := Some(key)]
    ensures forall k: Label ::
      (exists i :: 0 <= i < |appeals| && after[i] == Some(k) && Incomplete(appeals, i)) <==>
      (exists i :: 0 <= i < |appeals| && before[i] == Some(k) && Incomplete(appeals, i)) || (k == key && Incomplete(appeals, n))
  {
  }

  lemma {:induction false} OneMoreInSeries(appeals: seq<Appeal>, table: map<Label, Label>, before: seq<Option<Label>>,
                                           after: seq<Option<Label>>, was: map<Label, Series>, series: map<Label,
                                           Series>, n: nat, key: Label)
    requires n < |appeals| == |before| && before[n].None? && after == before[n := Some(key)]
    requires SeriesFor(appeals, table, before, was) && key in was
    requires series == if Incomplete(appeals, n) then was[key := was[key].(incomplete := true)] else was
    ensures SeriesFor(appeals, table, after, series)
  {
    OneMoreJoined(appeals, before, after, n, key);
  }

  lemma {:induction false} FoldersDistinctNeverHang(appeals: seq<Appeal>)
    ensures FoldersDistinct(appeals) ==> !Hangs(appeals)
  {
    if FoldersDistinct(appeals) {
      forall i | 0 <= i < |Strings(appeals)| {
        DistinctFoldersNeverHang(appeals, i, 0);
      }
    }
  }

  lemma {:induction false} RegeneratedSettles(appeals: seq<Appeal>, labels: seq<Label>, joined: seq<Option<Label>>,
                                              series: map<Label, Series>, outcome: Outcome)
    requires Labelled(Links(appeals), labels) && |joined| == |appeals|
    requires Regenerated(appeals, TableFor(appeals, labels), labels, joined, series, outcome)
    ensures outcome == Done <==> Settles(appeals)
    ensures SuffixedNotEarlier(appeals) ==> outcome == Done
    ensures outcome == Done && appeals != [] ==> joined[0].Some? && joined[0].value in series
    ensures outcome == Done && appeals != [] ==> series[joined[0].value].mergedCount == |MergedAppeals(appeals, |appeals|)|
  {
    DoneIff(appeals, labels, joined, series, outcome);
    if SuffixedNotEarlier(appeals) {
      ForestWhenSuffixedNotEarlier(appeals);
      GroundedNeverFails(appeals, labels, joined, series, outcome);
    }
  }

  /** Series once generated are generated again exactly when an appeal has come without one or the number of merged
      appeals is another. */
  lemma {:induction false} UpdateNeededIff(appeals: seq<Appeal>, labels: seq<Label>, joined: seq<Option<Label>>,
                                           series: map<Label, Series>, now: seq<Appeal>, joinedNow: seq<Option<Label>>)
    requires Labelled(Links(appeals), labels) && |joined| == |appeals| && appeals != []
    requires Regenerated(appeals, TableFor(appeals, labels), labels, joined, series, Done)
    requires |joinedNow| == |now| && joined <= joinedNow
    requires forall i :: |appeals| <= i < |now| ==> joinedNow[i].None?
    ensures NeedsUpdate(now, joinedNow, series) <==>
      |now| > |appeals| || |MergedAppeals(now, |now|)| != |MergedAppeals(appeals, |appeals|)|
  {
    RegeneratedSettles(appeals, labels, joined, series, Done);
    assert |now| > |appeals| ==> joinedNow[|appeals|].None?;
  }

  ghost predicate Regenerated(appeals: seq<Appeal>, table: map<Label, Label>, labels: seq<Label>,
                              joined: seq<Option<Label>>, series: map<Label, Series>, outcome: Outcome)
    requires |labels| == |appeals| == |joined|
  {
    && SeriesFor(appeals, table, joined, series)
    && match outcome
       case Endless => false
       case Done => Joined(labels, table, joined, |appeals|)
       case NoMethodError =>
         exists n :: 0 <= n < |appeals| && Joined(labels, table, joined, n) && Lookup(table, labels[n]).None?
  }

  // ---- What the series mean --------------------------------------------------------------------------------

  predicate SameTree(links: seq<Option<nat>>, i: nat, j: nat)
    requires Linked(links) && i < |links| && j < |links|
  {
    RootOf(links, i) == RootOf(links, j)
  }

  predicate Bounded(n: nat, merged: seq<nat>, targets: seq<Option<nat>>) {
    && |merged| == |targets| && (forall m :: 0 <= m < |merged| ==> merged[m] < n)
    && forall m :: 0 <= m < |targets| && targets[m].Some? ==> targets[m].value < n
  }

  /** The target of the last merged appeal of the tree that has one, else the appeal itself. */
  function SourceAfter(links: seq<Option<nat>>, merged: seq<nat>, targets: seq<Option<nat>>, i: nat, n: nat): (r: nat)
    requires Linked(links) && Bounded(|links|, merged, targets) && i < |links| && n <= |merged|
    ensures r < |links|
  {
    if n == 0 then i
    else if targets[n - 1].Some? && SameTree(links, merged[n - 1], i) then targets[n - 1].value
    else SourceAfter(links, merged, targets, i, n - 1)
  }

  /** Some merged appeal of the tree has a target. */
  predicate RedirectedAfter(links: seq<Option<nat>>, merged: seq<nat>, targets: seq<Option<nat>>, i: nat, n: nat)
    requires Linked(links) && Bounded(|links|, merged, targets) && i < |links| && n <= |merged|
  {
    exists m :: 0 <= m < n && targets[m].Some? && SameTree(links, merged[m], i)
  }

  lemma {:induction false} RedirectedOneMore(links: seq<Option<nat>>, merged: seq<nat>, targets: seq<Option<nat>>, i: nat,
                                             n: nat)
    requires Linked(links) && Bounded(|links|, merged, targets) && i < |links| && 0 < n <= |merged|
    ensures RedirectedAfter(links, merged, targets, i, n) <==>
      (targets[n - 1].Some? && SameTree(links, merged[n - 1], i)) || RedirectedAfter(links, merged, targets, i, n - 1)
  {
  }

  /** What the merge table says to an appeal: the label of its source. */
  lemma {:induction false} TableAt(links: seq<Option<nat>>, labels: seq<Label>, merged: seq<nat>,
                                   targets: seq<Option<nat>>, i: nat, n: nat)
    requires Linked(links) && Labelled(links, labels) && Bounded(|links|, merged, targets) && i < |links| && n <= |merged|
    ensures var table := MergeTable(|RootsOf(links, |links|)|, labels, merged, targets, n);
            && (labels[i] in table <==> labels[i].Some? || RedirectedAfter(links, merged, targets, i, n))
            && (labels[i] in table ==> table[labels[i]] == labels[SourceAfter(links, merged, targets, i, n)])
            && (labels[i] !in table ==> SourceAfter(links, merged, targets, i, n) == i)
  {
    if n == 0 {
      LabelIsRoot(links, labels, i);
    } else {
      TableAt(links, labels, merged, targets, i, n - 1);
      RedirectedOneMore(links, merged, targets, i, n);
      LabelsAgreeIff(links, labels, merged[n - 1], i);
    }
  }

  /** Every key of the table is the label of some appeal. */
  lemma {:induction false} KeyIsLabel(links: seq<Option<nat>>, labels: seq<Label>, merged: seq<nat>,
                                      targets: seq<Option<nat>>, key: Label, n: nat) returns (i: nat)
    requires Linked(links) && Labelled(links, labels) && Bounded(|links|, merged, targets) && n <= |merged|
    requires key in MergeTable(|RootsOf(links, |links|)|, labels, merged, targets, n)
    ensures i < |links| && labels[i] == key
  {
    if n == 0 {
      LabelOfRoot(links, labels, key.value);
      i := RootsOf(links, |links|)[key.value];
    } else if targets[n - 1].Some? && key == labels[merged[n - 1]] {
      i := merged[n - 1];
    } else {
      i := KeyIsLabel(links, labels, merged, targets, key, n - 1);
    }
  }

  function Source(appeals: seq<Appeal>, i: nat): (r: nat)
    requires i < |appeals|
    ensures r < |appeals|
  {
    var merged := MergedAppeals(appeals, |appeals|);
    SourceAfter(Links(appeals), merged, MergeTargets(appeals), i, |merged|)
  }

  predicate Redirected(appeals: seq<Appeal>, i: nat)
    requires i < |appeals|
  {
    var merged := MergedAppeals(appeals, |appeals|);
    RedirectedAfter(Links(appeals), merged, MergeTargets(appeals), i, |merged|)
  }

  /** The parents of the appeal run in a circle. */
  predicate Circling(appeals: seq<Appeal>, i: nat)
    requires i < |appeals|
  {
    RootOf(Links(appeals), i).None?
  }

  /** A merge leads from or to appeals in a circle, which gives the missing label an entry. */
  predicate Rescued(appeals: seq<Appeal>) {
    exists i :: 0 <= i < |appeals| && Redirected(appeals, i) && (Circling(appeals, i) || Circling(appeals, Source(appeals, i)))
  }

  /** No parents run in a circle, or a merge helps. */
  predicate Settles(appeals: seq<Appeal>) {
    (forall i :: 0 <= i < |appeals| ==> !Circling(appeals, i)) || Rescued(appeals)
  }

  lemma {:induction false} TableForAt(appeals: seq<Appeal>, labels: seq<Label>, i: nat)
    requires Labelled(Links(appeals), labels) && i < |appeals|
    ensures labels[i] in TableFor(appeals, labels) <==> !Circling(appeals, i) || Redirected(appeals, i)
    ensures labels[i] in TableFor(appeals, labels) ==> TableFor(appeals, labels)[labels[i]] == labels[Source(appeals, i)]
    ensures labels[i] !in TableFor(appeals, labels) ==> Source(appeals, i) == i
    ensures labels[i].None? <==> Circling(appeals, i)
  {
    var merged := MergedAppeals(appeals, |appeals|);
    TableAt(Links(appeals), labels, merged, MergeTargets(appeals), i, |merged|);
    LabelIsRoot(Links(appeals), labels, i);
  }

  /** The missing label has an entry, as a key or as a value, exactly when a merge gave it one. */
  lemma {:induction false} MissingLabelIff(appeals: seq<Appeal>, labels: seq<Label>)
    requires Labelled(Links(appeals), labels)
    ensures var table := TableFor(appeals, labels); None in table.Keys || None in table.Values <==> Rescued(appeals)
  {
    var table, merged := TableFor(appeals, labels), MergedAppeals(appeals, |appeals|);
    if None in table.Keys || None in table.Values {
      var key :| key in table && (key == None || table[key] == None);
      var i := KeyIsLabel(Links(appeals), labels, merged, MergeTargets(appeals), key, |merged|);
      TableForAt(appeals, labels, i);
      TableForAt(appeals, labels, Source(appeals, i));
      NotRedirected(appeals, i);
    }
    if Rescued(appeals) {
      var i :| 0 <= i < |appeals| && Redirected(appeals, i) && (Circling(appeals, i) || Circling(appeals, Source(appeals, i)));
      TableForAt(appeals, labels, i);
      TableForAt(appeals, labels, Source(appeals, i));
    }
  }

  lemma {:induction false} NoSourceBefore(links: seq<Option<nat>>, merged: seq<nat>, targets: seq<Option<nat>>, i: nat,
                                          n: nat)
    requires Linked(links) && Bounded(|links|, merged, targets) && i < |links| && n <= |merged|
    requires !RedirectedAfter(links, merged, targets, i, n)
    ensures SourceAfter(links, merged, targets, i, n) == i
  {
    if n > 0 {
      NoSourceBefore(links, merged, targets, i, n - 1);
    }
  }

  lemma {:induction false} NotRedirected(appeals: seq<Appeal>, i: nat)
    requires i < |appeals|
    ensures !Redirected(appeals, i) ==> Source(appeals, i) == i
  {
    if !Redirected(appeals, i) {
      var merged := MergedAppeals(appeals, |appeals|);
      NoSourceBefore(Links(appeals), merged, MergeTargets(appeals), i, |merged|);
    }
  }

  /** The series are generated without an error exactly when no parents run in a circle or a merge helps. */
  lemma {:induction false} DoneIff(appeals: seq<Appeal>, labels: seq<Label>, joined: seq<Option<Label>>,
                                   series: map<Label, Series>, outcome: Outcome)
    requires Labelled(Links(appeals), labels) && |joined| == |appeals|
    requires Regenerated(appeals, TableFor(appeals, labels), labels, joined, series, outcome)
    ensures outcome == Done <==> Settles(appeals)
  {
    var table := TableFor(appeals, labels);
    MissingLabelIff(appeals, labels);
    forall i | 0 <= i < |appeals|
      ensures Lookup(table, labels[i]).None? <==> Circling(appeals, i) && !Rescued(appeals)
    {
      LookupIs(appeals, labels, i);
    }
  }

  lemma {:induction false} LookupIs(appeals: seq<Appeal>, labels: seq<Label>, i: nat)
    requires Labelled(Links(appeals), labels) && i < |appeals|
    ensures Lookup(TableFor(appeals, labels), labels[i]).None? <==> Circling(appeals, i) && !Rescued(appeals)
    ensures Lookup(TableFor(appeals, labels), labels[i]).Some? ==>
      Lookup(TableFor(appeals, labels), labels[i]) == Some(labels[Source(appeals, i)])
  {
    var table := TableFor(appeals, labels);
    MissingLabelIff(appeals, labels);
    TableForAt(appeals, labels, i);
    LabelIsRoot(Links(appeals), labels, i);
    LookupFailsIff(|RootsOf(Links(appeals), |appeals|)|, labels, MergedAppeals(appeals, |appeals|), MergeTargets(appeals), i);
  }

  /** Without circles among the parent links every appeal gets exactly one series. */
  lemma {:induction false} GroundedNeverFails(appeals: seq<Appeal>, labels: seq<Label>, joined: seq<Option<Label>>,
                                              series: map<Label, Series>, outcome: Outcome)
    requires Labelled(Links(appeals), labels) && |joined| == |appeals|
    requires Regenerated(appeals, TableFor(appeals, labels), labels, joined, series, outcome)
    requires forall i :: 0 <= i < |appeals| ==> Grounded(Links(appeals), i)
    ensures outcome == Done
    ensures forall i :: 0 <= i < |appeals| ==> joined[i].Some? && joined[i].value in series
  {
    forall i | 0 <= i < |appeals|
      ensures !Circling(appeals, i)
    {
      RootOfIff(Links(appeals), i);
    }
    DoneIff(appeals, labels, joined, series, outcome);
  }

  /** An appeal and the appeal it was made from end in one series. */
  lemma {:induction false} FamilySharesSeries(appeals: seq<Appeal>, labels: seq<Label>, table: map<Label, Label>,
                                              joined: seq<Option<Label>>, series: map<Label, Series>, i: nat)
    requires Labelled(Links(appeals), labels) && |joined| == |appeals|
    requires Regenerated(appeals, table, labels, joined, series, Done)
    requires i < |appeals| && ParentOf(appeals, i).Some?
    ensures joined[i] == joined[ParentOf(appeals, i).value]
  {
    LabelOfParent(Links(appeals), labels, i);
  }

  /** Two appeals end in one series exactly when their sources are in one tree: those of one tree always,
      those of two trees that no merge connects never. */
  lemma {:induction false} SameSeriesIff(appeals: seq<Appeal>, labels: seq<Label>, joined: seq<Option<Label>>,
                                         series: map<Label, Series>, i: nat, j: nat)
    requires Labelled(Links(appeals), labels) && |joined| == |appeals| && i < |appeals| && j < |appeals|
    requires Regenerated(appeals, TableFor(appeals, labels), labels, joined, series, Done)
    ensures joined[i] == joined[j] <==> SameTree(Links(appeals), Source(appeals, i), Source(appeals, j))
    ensures SameTree(Links(appeals), i, j) ==> joined[i] == joined[j]
    ensures !Redirected(appeals, i) && !Redirected(appeals, j) ==> (joined[i] == joined[j] <==> SameTree(Links(appeals), i, j))
  {
    LookupIs(appeals, labels, i);
    LookupIs(appeals, labels, j);
    LabelsAgreeIff(Links(appeals), labels, Source(appeals, i), Source(appeals, j));
    LabelsAgreeIff(Links(appeals), labels, i, j);
    NotRedirected(appeals, i);
    NotRedirected(appeals, j);
  }

  /** The two appeals that are each other's parents: generating their series raises. */
  lemma {:induction false} CircleRaises() returns (appeals: seq<Appeal>)
    ensures |appeals| == 2 && ParentOf(appeals, 0) == Some(1) && ParentOf(appeals, 1) == Some(0)
    ensures !Hangs(appeals) && !Settles(appeals)
    ensures forall labels, joined, series, outcome ::
      (Labelled(Links(appeals), labels) && |joined| == |appeals|
       && Regenerated(appeals, TableFor(appeals, labels), labels, joined, series, outcome)) ==> outcome == NoMethodError
  {
    appeals := LinksMayCircle();
    RootOfIff(Links(appeals), 0);
    assert MergedAppeals(appeals, 0) == [] && MergedAppeals(appeals, 1) == [];
    assert MergedAppeals(appeals, 2) == [] && Strings(appeals) == [];
    assert Circling(appeals, 0);
    forall labels, joined, series, outcome | Labelled(Links(appeals), labels) && |joined| == |appeals|
        && Regenerated(appeals, TableFor(appeals, labels), labels, joined, series, outcome)
      ensures outcome == NoMethodError
    {
      DoneIff(appeals, labels, joined, series, outcome);
    }
  }
}
