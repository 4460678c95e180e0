/** The last action on the issues of an appeal series. */
module AppealSeriesIssues {
  import opened Prelude

  datatype Action = Allowed | Denied | Remand | FieldGrant | Withdrawn | CavcRemand

  type Table = seq<(Action, seq<string>)>

  /** Which dispositions lead to which action, in the order the actions are tried. */
  const LAST_ACTION_TYPE_FOR_DISPOSITIONS: Table := [
    (Allowed, ["allowed"]),
    (Denied, ["denied"]),
    (Remand, ["remanded", "manlincon_remand"]),
    (FieldGrant, ["benefits_granted_by_aoj", "advance_allowed_in_field"]),
    (Withdrawn, ["withdrawn", "motion_to_vacate_withdrawn", "withdrawn_from_remand", "recon_motion_withdrawn",
                 "advance_withdrawn_by_appellant_rep", "advance_failure_to_respond", "remand_failure_to_respond",
                 "ramp_opt_in"])]

  type Date = int

  datatype CavcDecision = CavcDecision(remanded: bool, decisionDate: Date)

  /** `activated` is that of the appeal of the issue. */
  datatype Issue = Issue(disposition: string, closeDate: Option<Date>, activated: bool, cavcDecisions: seq<CavcDecision>)

  datatype Event = Event(date: Date, action: Action)

  /** `None` while neither date nor type is set. */
  type Memo = Option<Event>

  /** The first action of the table that lists the disposition. */
  function LastActionType(table: Table, disposition: string): Option<Action> {
    if table == [] then None
    else if disposition in table[0].1 then Some(table[0].0)
    else LastActionType(table[1..], disposition)
  }

  /** No disposition is listed twice. */
  predicate Disjoint(table: Table) {
    forall i, j, d :: 0 <= i < j < |table| && d in table[i].1 ==> d !in table[j].1
  }

  /** When no disposition is listed twice the order of the table does not matter. */
  lemma {:induction false} TypeWhenListed(table: Table, disposition: string, k: nat)
    requires Disjoint(table) && k < |table| && disposition in table[k].1
    ensures LastActionType(table, disposition) == Some(table[k].0)
  {
    if k > 0 {
      assert disposition !in table[0].1;
      TypeWhenListed(table[1..], disposition, k - 1);
    }
  }

  lemma {:induction false} EachDispositionHasOneType()
    ensures Disjoint(LAST_ACTION_TYPE_FOR_DISPOSITIONS)
  {
    var table := LAST_ACTION_TYPE_FOR_DISPOSITIONS;
    assert table[0].1[0] == "allowed" && |table[0].1| == 1;
  }

  /** The latest of the remands. */
  function LastRemand(decisions: seq<CavcDecision>): (r: Option<Date>)
    ensures r.None? <==> forall i :: 0 <= i < |decisions| ==> !decisions[i].remanded
    ensures r.Some? ==> CavcDecision(true, r.value) in decisions
    ensures r.Some? ==> forall i :: 0 <= i < |decisions| && decisions[i].remanded ==> decisions[i].decisionDate <= r.value
  {
    if decisions == [] then None
    else
      var rest := LastRemand(decisions[1..]);
      if !decisions[0].remanded then rest
      else if rest.Some? && rest.value > decisions[0].decisionDate then rest
      else Some(decisions[0].decisionDate)
  }

  // ---- What counts -----------------------------------------------------------------------------------

  /** Decisions still being drafted are not made public. */
  predicate Publishable(issue: Issue, action: Action) {
    !(action in {Allowed, Denied, Remand} && issue.activated)
  }

  function Closing(table: Table, issue: Issue): seq<Event> {
    var action := LastActionType(table, issue.disposition);
    if issue.closeDate.Some? && action.Some? && Publishable(issue, action.value)
    then [Event(issue.closeDate.value, action.value)]
    else []
  }

  function CourtRemand(issue: Issue): seq<Event> {
    var remand := LastRemand(issue.cavcDecisions);
    if remand.Some? then [Event(remand.value, CavcRemand)] else []
  }

  function EventsOf(table: Table, issue: Issue): seq<Event> {
    Closing(table, issue) + CourtRemand(issue)
  }

  function Concat(lists: seq<seq<Event>>): seq<Event> {
    if lists == [] then [] else Concat(lists[..|lists| - 1]) + lists[|lists| - 1]
  }

  function Mapped(f: Issue -> seq<Event>, issues: seq<Issue>): (r: seq<seq<Event>>)
    ensures |r| == |issues| && forall i :: 0 <= i < |r| ==> r[i] == f(issues[i])
  {
    seq(|issues|, i requires 0 <= i < |issues| => f(issues[i]))
  }

  function Visitor(table: Table): Issue -> seq<Event> {
    (issue: Issue) => EventsOf(table, issue)
  }

  function EventLists(table: Table, issues: seq<Issue>): seq<seq<Event>> {
    Mapped(Visitor(table), issues)
  }

  /** Everything that counts as an action, in the order it is visited. */
  function Events(table: Table, issues: seq<Issue>): seq<Event> {
    Concat(EventLists(table, issues))
  }

  /** No event is later than the one at `k`, and those before it are earlier. */
  predicate FirstOfLatest(events: seq<Event>, k: nat)
    requires k < |events|
  {
    && (forall j :: 0 <= j < k ==> events[j].date < events[k].date)
    && forall j :: k < j < |events| ==> events[j].date <= events[k].date
  }

  predicate IsLatest(events: seq<Event>, memo: Memo) {
    if memo.None? then events == []
    else exists k: nat :: k < |events| && FirstOfLatest(events, k) && events[k] == memo.value
  }

  lemma {:induction false} LatestIsUnique(events: seq<Event>, a: Memo, b: Memo)
    requires IsLatest(events, a) && IsLatest(events, b)
    ensures a == b
  {
    if a.Some? {
      var k: nat :| k < |events| && FirstOfLatest(events, k) && events[k] == a.value;
      var m: nat :| m < |events| && FirstOfLatest(events, m) && events[m] == b.value;
      assert !(k < m) && !(m < k);
    }
  }

  lemma {:induction false} LaterEvent(events: seq<Event>, k: nat, event: Event)
    requires k < |events| && FirstOfLatest(events, k)
    ensures event.date > events[k].date ==> FirstOfLatest(events + [event], |events|)
    ensures event.date <= events[k].date ==> FirstOfLatest(events + [event], k)
  {
    var more := events + [event];
    assert forall j :: 0 <= j < |events| ==> more[j] == events[j];
    assert forall j :: 0 <= j < |events| ==> events[j].date <= events[k].date;
  }

  /** One more event replaces the latest only when it is later. */
  lemma {:induction false} OneMoreEvent(events: seq<Event>, memo: Memo, event: Event)
    requires IsLatest(events, memo)
    ensures IsLatest(events + [event], if memo.None? || event.date > memo.value.date then Some(event) else memo)
  {
    var more := events + [event];
    if memo.None? {
      assert FirstOfLatest(more, 0);
    } else {
      var k: nat :| k < |events| && FirstOfLatest(events, k) && events[k] == memo.value;
      LaterEvent(events, k, event);
      assert more[k] == events[k] && more[|events|] == event;
    }
  }

  lemma {:induction false} EventsOfOneMore(table: Table, issues: seq<Issue>, issue: Issue)
    ensures Events(table, issues + [issue]) == Events(table, issues) + EventsOf(table, issue)
  {
    var more := issues + [issue];
    assert EventLists(table, more)[..|issues|] == EventLists(table, issues);
  }

  // ---- What the issues show ----------------------------------------------------------------------------

  /** The dispositions that lead to each action. */
  predicate LeadsTo(disposition: string, action: Action) {
    match action
    case Allowed => disposition == "allowed"
    case Denied => disposition == "denied"
    case Remand => disposition in {"remanded", "manlincon_remand"}
    case FieldGrant => disposition in {"benefits_granted_by_aoj", "advance_allowed_in_field"}
    case Withdrawn =>
      disposition in {"withdrawn", "motion_to_vacate_withdrawn", "withdrawn_from_remand", "recon_motion_withdrawn",
                      "advance_withdrawn_by_appellant_rep", "advance_failure_to_respond", "remand_failure_to_respond",
                      "ramp_opt_in"}
    case CavcRemand => false
  }

  lemma {:induction false} TypeIsListed(table: Table, disposition: string)
    ensures LastActionType(table, disposition).Some? <==> exists k :: 0 <= k < |table| && disposition in table[k].1
    ensures LastActionType(table, disposition).Some? ==>
      exists k :: 0 <= k < |table| && disposition in table[k].1 && LastActionType(table, disposition) == Some(table[k].0)
  {
    if table != [] {
      TypeIsListed(table[1..], disposition);
      assert forall k :: 0 <= k < |table| - 1 ==> table[1..][k] == table[k + 1];
      assert forall k :: 1 <= k < |table| ==> table[k] == table[1..][k - 1];
    }
  }

  lemma {:induction false} RowsLead(disposition: string, k: nat)
    requires k < |LAST_ACTION_TYPE_FOR_DISPOSITIONS|
    ensures disposition in LAST_ACTION_TYPE_FOR_DISPOSITIONS[k].1
      <==> LeadsTo(disposition, LAST_ACTION_TYPE_FOR_DISPOSITIONS[k].0)
  {
  }

  /** The type found for a disposition is the action it leads to. */
  lemma {:induction false} TypeIff(disposition: string, action: Action)
    ensures LastActionType(LAST_ACTION_TYPE_FOR_DISPOSITIONS, disposition) == Some(action) <==> LeadsTo(disposition, action)
  {
    var table := LAST_ACTION_TYPE_FOR_DISPOSITIONS;
    EachDispositionHasOneType();
    TypeIsListed(table, disposition);
    var found := LastActionType(table, disposition);
    if found.Some? {
      var k: nat :| k < |table| && disposition in table[k].1 && found == Some(table[k].0);
      RowsLead(disposition, k);
    }
    if LeadsTo(disposition, action) {
      var k := RowOf(action);
      RowsLead(disposition, k);
      TypeWhenListed(table, disposition, k);
    }
  }

  function RowOf(action: Action): (k: nat)
    requires action != CavcRemand
    ensures k < |LAST_ACTION_TYPE_FOR_DISPOSITIONS| && LAST_ACTION_TYPE_FOR_DISPOSITIONS[k].0 == action
  {
    match action
    case Allowed => 0
    case Denied => 1
    case Remand => 2
    case FieldGrant => 3
    case Withdrawn => 4
  }

  /** A closed issue of a listed disposition shows its action on the day it was closed, but a decision of the Board
      only if its appeal is not activated; and an issue shows a court remand on the day of its latest one. */
  predicate Shows(issue: Issue, event: Event) {
    || (issue.closeDate == Some(event.date) && LeadsTo(issue.disposition, event.action)
        && (issue.activated ==> event.action != Allowed && event.action != Denied && event.action != Remand))
    || (event.action == CavcRemand && CavcDecision(true, event.date) in issue.cavcDecisions
        && forall c :: c in issue.cavcDecisions && c.remanded ==> c.decisionDate <= event.date)
  }

  lemma {:induction false} LastRemandIff(decisions: seq<CavcDecision>, date: Date)
    ensures LastRemand(decisions) == Some(date) <==>
      CavcDecision(true, date) in decisions && forall c :: c in decisions && c.remanded ==> c.decisionDate <= date
  {
    var last := LastRemand(decisions);
    if last == Some(date) {
      forall c | c in decisions && c.remanded
        ensures c.decisionDate <= date
      {
        var i :| 0 <= i < |decisions| && decisions[i] == c;
      }
    }
    if CavcDecision(true, date) in decisions && forall c :: c in decisions && c.remanded ==> c.decisionDate <= date {
      var i :| 0 <= i < |decisions| && decisions[i] == CavcDecision(true, date);
      assert CavcDecision(true, last.value) in decisions;
    }
  }

  lemma {:induction false} EventsAreShown(issue: Issue, event: Event)
    ensures event in EventsOf(LAST_ACTION_TYPE_FOR_DISPOSITIONS, issue) <==> Shows(issue, event)
  {
    var table := LAST_ACTION_TYPE_FOR_DISPOSITIONS;
    TypeIff(issue.disposition, event.action);
    LastRemandIff(issue.cavcDecisions, event.date);
    assert event in EventsOf(table, issue) <==> event in Closing(table, issue) || event in CourtRemand(issue);
    ClosingIff(table, issue, event);
  }

  lemma {:induction false} ClosingIff(table: Table, issue: Issue, event: Event)
    ensures event in Closing(table, issue) <==>
      && issue.closeDate == Some(event.date) && LastActionType(table, issue.disposition) == Some(event.action)
      && (issue.activated ==> event.action != Allowed && event.action != Denied && event.action != Remand)
  {
  }

  ghost predicate SomeShows(issues: seq<Issue>, event: Event) {
    exists issue :: issue in issues && Shows(issue, event)
  }

  lemma {:induction false} SomeShowsIff(issues: seq<Issue>, event: Event)
    ensures event in Events(LAST_ACTION_TYPE_FOR_DISPOSITIONS, issues) <==> SomeShows(issues, event)
  {
    EventsMembers(LAST_ACTION_TYPE_FOR_DISPOSITIONS, issues, event);
    if issue :| issue in issues && event in EventsOf(LAST_ACTION_TYPE_FOR_DISPOSITIONS, issue) {
      EventsAreShown(issue, event);
    }
    if issue :| issue in issues && Shows(issue, event) {
      EventsAreShown(issue, event);
    }
  }

  lemma {:induction false} LatestOfEvents(events: seq<Event>, latest: Memo)
    requires IsLatest(events, latest)
    ensures latest.None? <==> forall event :: event !in events
    ensures latest.Some? ==> latest.value in events && forall event :: event in events ==> event.date <= latest.value.date
  {
    assert events != [] ==> events[0] in events;
  }

  /** The last action is shown by an issue and by none later, and it is missing only if no issue shows any. */
  lemma {:induction false} LastActionIsShown(issues: seq<Issue>, latest: Memo)
    requires IsLatest(Events(LAST_ACTION_TYPE_FOR_DISPOSITIONS, issues), latest)
    ensures latest.None? <==> forall event :: !SomeShows(issues, event)
    ensures latest.Some? ==> SomeShows(issues, latest.value)
    ensures latest.Some? ==> forall event :: SomeShows(issues, event) ==> event.date <= latest.value.date
  {
    LatestOfEvents(Events(LAST_ACTION_TYPE_FOR_DISPOSITIONS, issues), latest);
    forall event
      ensures event in Events(LAST_ACTION_TYPE_FOR_DISPOSITIONS, issues) <==> SomeShows(issues, event)
    {
      SomeShowsIff(issues, event);
    }
  }

  method VisitClosing(table: Table, before: Memo, issue: Issue, ghost visited: seq<Event>) returns (memo: Memo)
    requires IsLatest(visited, before)
    ensures IsLatest(visited + Closing(table, issue), memo)
  {
    memo := before;
    ghost var closing := Closing(table, issue);
    if issue.closeDate.Some? && (memo.None? || issue.closeDate.value > memo.value.date) {
      var action := LastActionType(table, issue.disposition);
      if action.Some? {
        if !(action.value in {Allowed, Denied, Remand} && issue.activated) {
          memo := Some(Event(issue.closeDate.value, action.value));
        }
      }
    }
    assert memo == if closing != [] && (before.None? || closing[0].date > before.value.date) then Some(closing[0]) else before;
    AtMostOneMore(visited, before, closing);
  }

  lemma {:induction false} AtMostOneMore(visited: seq<Event>, memo: Memo, more: seq<Event>)
    requires IsLatest(visited, memo) && |more| <= 1
    ensures IsLatest(visited + more,
                     if more != [] && (memo.None? || more[0].date > memo.value.date) then Some(more[0]) else memo)
  {
    if more == [] {
      assert visited + more == visited;
    } else {
      assert more == [more[0]];
      OneMoreEvent(visited, memo, more[0]);
    }
  }

  method VisitCavcDecisions(before: Memo, issue: Issue, ghost visited: seq<Event>) returns (memo: Memo)
    requires IsLatest(visited, before)
    ensures IsLatest(visited + CourtRemand(issue), memo)
  {
    memo := before;
    ghost var remand := CourtRemand(issue);
    var lastCavcRemand := LastRemand(issue.cavcDecisions);
    if lastCavcRemand.Some? && (memo.None? || lastCavcRemand.value > memo.value.date) {
      memo := Some(Event(lastCavcRemand.value, CavcRemand));
    }
    assert memo == if remand != [] && (before.None? || remand[0].date > before.value.date) then Some(remand[0]) else before;
    AtMostOneMore(visited, before, remand);
  }

  /** What one issue does to the last action. */
  method Visit(table: Table, before: Memo, issue: Issue, ghost visited: seq<Event>) returns (memo: Memo)
    requires IsLatest(visited, before)
    ensures IsLatest(visited + EventsOf(table, issue), memo)
  {
    memo := VisitClosing(table, before, issue, visited);
    memo := VisitCavcDecisions(memo, issue, visited + Closing(table, issue));
    assert visited + Closing(table, issue) + CourtRemand(issue) == visited + EventsOf(table, issue);
  }

  lemma {:induction false} VisitedOneMore(table: Table, issues: seq<Issue>, n: nat)
    requires n < |issues|
    ensures Events(table, issues[..n + 1]) == Events(table, issues[..n]) + EventsOf(table, issues[n])
  {
    assert issues[..n + 1] == issues[..n] + [issues[n]];
    EventsOfOneMore(table, issues[..n], issues[n]);
  }

  /** The fold over a group of issues gives the first of the latest events, whatever the table. */
  method LastActionForIssues(table: Table, issues: seq<Issue>) returns (memo: Memo)
    ensures IsLatest(Events(table, issues), memo)
  {
    memo := None;
    for n := 0 to |issues|
      invariant IsLatest(Events(table, issues[..n]), memo)
    {
      memo := Visit(table, memo, issues[n], Events(table, issues[..n]));
      VisitedOneMore(table, issues, n);
    }
    assert issues[..|issues|] == issues;
  }

  // ---- Order -----------------------------------------------------------------------------------------

  lemma {:induction false} ConcatMembers(lists: seq<seq<Event>>, event: Event)
    ensures event in Concat(lists) <==> exists k :: 0 <= k < |lists| && event in lists[k]
  {
    if lists != [] {
      var n := |lists| - 1;
      ConcatMembers(lists[..n], event);
      assert (exists k :: 0 <= k < n && event in lists[k]) <==> exists k :: 0 <= k < n && event in lists[..n][k];
    }
  }

  lemma {:induction false} EventsMembers(table: Table, issues: seq<Issue>, event: Event)
    ensures event in Events(table, issues) <==> exists issue :: issue in issues && event in EventsOf(table, issue)
  {
    var lists := EventLists(table, issues);
    ConcatMembers(lists, event);
    if k :| 0 <= k < |lists| && event in lists[k] {
      assert issues[k] in issues && event in EventsOf(table, issues[k]);
    }
    if issue :| issue in issues && event in EventsOf(table, issue) {
      var k :| 0 <= k < |issues| && issues[k] == issue;
      assert event in lists[k];
    }
  }

  /** The date does not depend on the order of the issues. */
  lemma {:induction false} DateIgnoresOrder(table: Table, issues: seq<Issue>, shuffled: seq<Issue>, a: Memo, b: Memo)
    requires multiset(issues) == multiset(shuffled)
    requires IsLatest(Events(table, issues), a) && IsLatest(Events(table, shuffled), b)
    ensures a.Some? <==> b.Some?
    ensures a.Some? ==> a.value.date == b.value.date
  {
    forall issue
      ensures issue in issues <==> issue in shuffled
    {
      assert issue in issues <==> issue in multiset(issues);
      assert issue in shuffled <==> issue in multiset(shuffled);
    }
    NotEarlier(table, issues, shuffled, a, b);
    NotEarlier(table, shuffled, issues, b, a);
  }

  lemma {:induction false} NotEarlier(table: Table, issues: seq<Issue>, others: seq<Issue>, a: Memo, b: Memo)
    requires forall issue :: issue in issues ==> issue in others
    requires IsLatest(Events(table, issues), a) && IsLatest(Events(table, others), b)
    ensures a.Some? ==> b.Some? && a.value.date <= b.value.date
  {
    if a.Some? {
      EventsMembers(table, issues, a.value);
      EventsMembers(table, others, a.value);
      NoneLater(table, others, b, a.value);
    }
  }

  lemma {:induction false} NoneLater(table: Table, issues: seq<Issue>, latest: Memo, event: Event)
    requires IsLatest(Events(table, issues), latest) && event in Events(table, issues)
    ensures latest.Some? && event.date <= latest.value.date
  {
  }

  /** The first action of the issue on this day, if any. */
  function FirstOn(table: Table, issue: Issue, date: Date): Option<Action> {
    if Closing(table, issue) != [] && Closing(table, issue)[0].date == date then Some(Closing(table, issue)[0].action)
    else if CourtRemand(issue) != [] && CourtRemand(issue)[0].date == date then Some(CourtRemand(issue)[0].action)
    else None
  }

  /** Issues with an action on this day begin it with the same action. */
  predicate AgreeOn(table: Table, issues: seq<Issue>, date: Date) {
    forall i, j :: 0 <= i < |issues| && 0 <= j < |issues|
      && FirstOn(table, issues[i], date).Some? && FirstOn(table, issues[j], date).Some?
      ==> FirstOn(table, issues[i], date) == FirstOn(table, issues[j], date)
  }

  lemma {:induction false} FirstOnIs(table: Table, issue: Issue, k: nat)
    requires k < |EventsOf(table, issue)| && forall j :: 0 <= j < k ==> EventsOf(table, issue)[j].date < EventsOf(table, issue)[k].date
    ensures FirstOn(table, issue, EventsOf(table, issue)[k].date) == Some(EventsOf(table, issue)[k].action)
  {
    assert k > 0 ==> EventsOf(table, issue)[0] == Closing(table, issue)[0];
  }

  lemma {:induction false} FirstOnEvent(table: Table, issue: Issue, date: Date) returns (k: nat)
    requires FirstOn(table, issue, date).Some?
    ensures k < |EventsOf(table, issue)| && EventsOf(table, issue)[k] == Event(date, FirstOn(table, issue, date).value)
    ensures forall j :: 0 <= j < k ==> EventsOf(table, issue)[j].date != date
  {
    k := if Closing(table, issue) != [] && Closing(table, issue)[0].date == date then 0 else |Closing(table, issue)|;
  }

  lemma {:induction false} LatestOfConcat(before: seq<Event>, own: seq<Event>, k: nat)
    requires k < |before + own| && FirstOfLatest(before + own, k)
    ensures k < |before| ==> FirstOfLatest(before, k)
    ensures k >= |before| ==> forall j :: 0 <= j < k - |before| ==> own[j].date < own[k - |before|].date
  {
    var all := before + own;
    assert forall j :: 0 <= j < |before| ==> before[j] == all[j];
    assert forall j :: 0 <= j < |own| ==> own[j] == all[|before| + j];
  }

  lemma {:induction false} BeginsAt(table: Table, issues: seq<Issue>, events: seq<Event>, k: nat) returns (i: nat)
    requires events == Events(table, issues) && k < |events| && FirstOfLatest(events, k)
    ensures i < |issues| && FirstOn(table, issues[i], events[k].date) == Some(events[k].action)
    decreases |issues|
  {
    var n := |issues| - 1;
    var before, own := Events(table, issues[..n]), EventsOf(table, issues[n]);
    assert events == before + own by {
      assert issues[..n + 1] == issues;
      VisitedOneMore(table, issues, n);
    }
    LatestOfConcat(before, own, k);
    if k < |before| {
      i := BeginsAt(table, issues[..n], before, k);
    } else {
      FirstOnIs(table, issues[n], k - |before|);
      i := n;
    }
  }

  /** The last action is what some issue begins the latest day with. */
  lemma {:induction false} LatestBegins(table: Table, issues: seq<Issue>, latest: Event) returns (i: nat)
    requires IsLatest(Events(table, issues), Some(latest))
    ensures i < |issues| && FirstOn(table, issues[i], latest.date) == Some(latest.action)
  {
    var events := Events(table, issues);
    var k: nat :| k < |events| && FirstOfLatest(events, k) && events[k] == latest;
    i := BeginsAt(table, issues, events, k);
  }

  lemma {:induction false} ConcatFirst(first: seq<Event>, lists: seq<seq<Event>>)
    ensures Concat([first] + lists) == first + Concat(lists)
  {
    var all := [first] + lists;
    if lists == [] {
      assert all[..0] == [];
    } else {
      ConcatFirst(first, lists[..|lists| - 1]);
      assert all[..|all| - 1] == [first] + lists[..|lists| - 1];
    }
  }

  lemma {:induction false} MappedFirst(f: Issue -> seq<Event>, issue: Issue, issues: seq<Issue>)
    ensures Mapped(f, [issue] + issues) == [f(issue)] + Mapped(f, issues)
  {
    var all := [issue] + issues;
    assert forall i :: 0 <= i < |issues| ==> all[i + 1] == issues[i];
  }

  lemma {:induction false} EventsOfFirst(table: Table, issue: Issue, issues: seq<Issue>)
    ensures Events(table, [issue] + issues) == EventsOf(table, issue) + Events(table, issues)
  {
    MappedFirst(Visitor(table), issue, issues);
    ConcatFirst(EventsOf(table, issue), EventLists(table, issues));
  }

  /** The issue at `k` moved to the front. */
  function MovedFirst(issues: seq<Issue>, k: nat): seq<Issue>
    requires k < |issues|
  {
    [issues[k]] + (issues[..k] + issues[k + 1..])
  }

  lemma {:induction false} MovedFirstIsShuffled(issues: seq<Issue>, k: nat)
    requires k < |issues|
    ensures multiset(MovedFirst(issues, k)) == multiset(issues)
    ensures forall issue :: issue in MovedFirst(issues, k) <==> issue in issues
  {
    assert issues == issues[..k] + [issues[k]] + issues[k + 1..];
    assert forall issue :: issue in MovedFirst(issues, k) <==> issue in multiset(MovedFirst(issues, k));
    assert forall issue :: issue in issues <==> issue in multiset(issues);
  }

  lemma {:induction false} NoneLaterIn(table: Table, issues: seq<Issue>, others: seq<Issue>, latest: Event)
    requires IsLatest(Events(table, issues), Some(latest)) && forall issue :: issue in others <==> issue in issues
    ensures forall j :: 0 <= j < |Events(table, others)| ==> Events(table, others)[j].date <= latest.date
  {
    forall j | 0 <= j < |Events(table, others)|
      ensures Events(table, others)[j].date <= latest.date
    {
      var event := Events(table, others)[j];
      EventsMembers(table, others, event);
      EventsMembers(table, issues, event);
      NoneLater(table, issues, Some(latest), event);
    }
  }

  lemma {:induction false} FirstInFront(own: seq<Event>, rest: seq<Event>, m: nat)
    requires m < |own| && forall j :: 0 <= j < m ==> own[j].date != own[m].date
    requires forall j :: 0 <= j < |own + rest| ==> (own + rest)[j].date <= own[m].date
    ensures IsLatest(own + rest, Some(own[m]))
  {
    assert forall j :: 0 <= j < |own| ==> (own + rest)[j] == own[j];
    assert FirstOfLatest(own + rest, m);
  }

  /** An issue visited first decides what the latest day begins with. */
  lemma {:induction false} VisitedFirst(table: Table, issues: seq<Issue>, latest: Event, k: nat)
    requires IsLatest(Events(table, issues), Some(latest)) && k < |issues| && FirstOn(table, issues[k], latest.date).Some?
    ensures multiset(MovedFirst(issues, k)) == multiset(issues)
    ensures IsLatest(Events(table, MovedFirst(issues, k)),
                     Some(Event(latest.date, FirstOn(table, issues[k], latest.date).value)))
  {
    var moved := MovedFirst(issues, k);
    var own, rest := EventsOf(table, issues[k]), Events(table, issues[..k] + issues[k + 1..]);
    MovedFirstIsShuffled(issues, k);
    assert Events(table, moved) == own + rest by {
      EventsOfFirst(table, issues[k], issues[..k] + issues[k + 1..]);
    }
    var events: seq<Event> := own + rest;
    assert forall j :: 0 <= j < |events| ==> events[j].date <= latest.date by {
      NoneLaterIn(table, issues, moved, latest);
    }
    var m := FirstOnEvent(table, issues[k], latest.date);
    FirstInFront(own, rest, m);
  }

  /** The type is the same for every order of the issues exactly when all issues with an action on the latest
      day begin it with the same one. */
  lemma {:induction false} TypeIgnoresOrderIff(table: Table, issues: seq<Issue>, memo: Memo)
    requires IsLatest(Events(table, issues), memo)
    ensures (forall shuffled, other: Memo :: multiset(shuffled) == multiset(issues) && IsLatest(Events(table, shuffled), other) ==> other == memo)
      <==> memo.None? || AgreeOn(table, issues, memo.value.date)
  {
    if memo.None? || AgreeOn(table, issues, memo.value.date) {
      forall shuffled, other: Memo | multiset(shuffled) == multiset(issues) && IsLatest(Events(table, shuffled), other)
        ensures other == memo
      {
        AgreeingFixesType(table, issues, memo, shuffled, other);
      }
    } else {
      var i, j :| 0 <= i < |issues| && 0 <= j < |issues|
        && FirstOn(table, issues[i], memo.value.date).Some? && FirstOn(table, issues[j], memo.value.date).Some?
        && FirstOn(table, issues[i], memo.value.date) != FirstOn(table, issues[j], memo.value.date);
      var k := if FirstOn(table, issues[i], memo.value.date).value != memo.value.action then i else j;
      VisitedFirst(table, issues, memo.value, k);
      assert Some(Event(memo.value.date, FirstOn(table, issues[k], memo.value.date).value)) != memo;
    }
  }

  lemma {:induction false} AgreeingFixesType(table: Table, issues: seq<Issue>, memo: Memo, shuffled: seq<Issue>,
                                             other: Memo)
    requires IsLatest(Events(table, issues), memo) && IsLatest(Events(table, shuffled), other)
    requires multiset(shuffled) == multiset(issues) && (memo.None? || AgreeOn(table, issues, memo.value.date))
    ensures other == memo
  {
    DateIgnoresOrder(table, issues, shuffled, memo, other);
    if memo.Some? {
      var i := LatestBegins(table, issues, memo.value);
      var j := LatestBegins(table, shuffled, other.value);
      assert shuffled[j] in multiset(issues);
      var k :| 0 <= k < |issues| && issues[k] == shuffled[j];
    }
  }

  /** The type does: of two events on one day the first visited decides. */
  lemma {:induction false} TypeDependsOnOrder() returns (issues: seq<Issue>, shuffled: seq<Issue>, a: Memo, b: Memo)
    ensures multiset(issues) == multiset(shuffled)
    ensures IsLatest(Events(LAST_ACTION_TYPE_FOR_DISPOSITIONS, issues), a)
    ensures IsLatest(Events(LAST_ACTION_TYPE_FOR_DISPOSITIONS, shuffled), b)
    ensures a != b
  {
    EachDispositionHasOneType();
    TypeWhenListed(LAST_ACTION_TYPE_FOR_DISPOSITIONS, "allowed", 0);
    TypeWhenListed(LAST_ACTION_TYPE_FOR_DISPOSITIONS, "denied", 1);
    issues, shuffled, a, b := TwoOrders(LAST_ACTION_TYPE_FOR_DISPOSITIONS);
  }

  lemma {:induction false} TwoOrders(table: Table) returns (issues: seq<Issue>, shuffled: seq<Issue>, a: Memo, b: Memo)
    requires LastActionType(table, "allowed") == Some(Allowed) && LastActionType(table, "denied") == Some(Denied)
    ensures multiset(issues) == multiset(shuffled)
    ensures IsLatest(Events(table, issues), a) && IsLatest(Events(table, shuffled), b)
    ensures a != b
  {
    var allowed, denied := Issue("allowed", Some(1), false, []), Issue("denied", Some(1), false, []);
    issues, shuffled := [allowed, denied], [denied, allowed];
    a, b := Some(Event(1, Allowed)), Some(Event(1, Denied));
    TwoClosings(table, allowed, denied, Allowed, Denied);
    TwoClosings(table, denied, allowed, Denied, Allowed);
    assert FirstOfLatest(Events(table, issues), 0) && FirstOfLatest(Events(table, shuffled), 0);
  }

  lemma {:induction false} TwoClosings(table: Table, first: Issue, second: Issue, a: Action, b: Action)
    requires first.closeDate == second.closeDate == Some(1) && first.cavcDecisions == second.cavcDecisions == []
    requires LastActionType(table, first.disposition) == Some(a) && LastActionType(table, second.disposition) == Some(b)
    requires !first.activated && !second.activated
    ensures Events(table, [first, second]) == [Event(1, a), Event(1, b)]
  {
    EventsOfOneMore(table, [], first);
    EventsOfOneMore(table, [first], second);
    assert [] + [first] == [first] && [first] + [second] == [first, second];
    assert Events(table, []) == [] && EventsOf(table, first) == [Event(1, a)] && EventsOf(table, second) == [Event(1, b)];
  }
}
