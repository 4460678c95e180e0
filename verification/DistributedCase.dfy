/** Handing appeals to judges and recording each of them as a distributed case, with the renaming of the
    old record when an appeal is distributed again. One distribution is one transaction. */
module DistributedCases {
  import opened Prelude

  // ---- Tasks of an appeal --------------------------------------------------------------------------

  datatype Status = Assigned | InProgress | OnHold | Completed | Cancelled

  predicate Open(s: Status) { s.Assigned? || s.InProgress? || s.OnHold? }

  datatype Kind = RootTask | TrackVeteranTask | JudgeAssignTask | DistributionTask | OtherTask

  datatype Task = Task(kind: Kind, status: Status)

  datatype Appeal = Appeal(uuid: string, tasks: seq<Task>)

  /** Some distribution task is assigned. */
  predicate Ready(a: Appeal) {
    exists i :: 0 <= i < |a.tasks| && a.tasks[i] == Task(DistributionTask, Assigned)
  }

  /** No other work is open on the appeal. */
  predicate CanRedistribute(a: Appeal) {
    forall i :: 0 <= i < |a.tasks| && a.tasks[i].kind.OtherTask? ==> !Open(a.tasks[i].status)
  }

  /** A judge task taken over by another judge is cancelled in favour of a new one. */
  function CancelJudgeTask(tasks: seq<Task>): (r: seq<Task>)
    ensures |r| == |tasks|
    ensures forall i :: 0 <= i < |r| ==> r[i].kind == tasks[i].kind && (!tasks[i].kind.JudgeAssignTask? ==> r[i] == tasks[i])
  {
    if tasks == [] then []
    else if tasks[0].kind.JudgeAssignTask? && Open(tasks[0].status) then [tasks[0].(status := Cancelled)] + tasks[1..]
    else [tasks[0]] + CancelJudgeTask(tasks[1..])
  }

  function CompleteDistributionTasks(tasks: seq<Task>): (r: seq<Task>)
    ensures |r| == |tasks|
    ensures forall i :: 0 <= i < |r| ==>
      r[i] == if tasks[i].kind.DistributionTask? then tasks[i].(status := Completed) else tasks[i]
  {
    seq(|tasks|, i requires 0 <= i < |tasks| =>
      if tasks[i].kind.DistributionTask? then tasks[i].(status := Completed) else tasks[i])
  }

  function AssignToJudge(a: Appeal): Appeal {
    a.(tasks := CompleteDistributionTasks(CancelJudgeTask(a.tasks) + [Task(JudgeAssignTask, Assigned)]))
  }

  lemma {:induction false} AssignedIsNotReady(a: Appeal)
    ensures !Ready(AssignToJudge(a))
    ensures CanRedistribute(AssignToJudge(a)) <==> CanRedistribute(a)
  {
    var after := AssignToJudge(a);
    assert |after.tasks| == |a.tasks| + 1;
    assert forall i :: 0 <= i < |a.tasks| && a.tasks[i].kind.OtherTask? ==> after.tasks[i] == a.tasks[i];
    assert forall i :: 0 <= i < |after.tasks| && after.tasks[i].kind.OtherTask? ==> i < |a.tasks| && a.tasks[i] == after.tasks[i];
  }

  /** Only tasks of the four kinds of case handling may be open. */
  lemma {:induction false} CanRedistributeIff(a: Appeal)
    ensures CanRedistribute(a) <==>
      forall t :: t in a.tasks ==>
        t.kind in {RootTask, TrackVeteranTask, JudgeAssignTask, DistributionTask} || t.status in {Completed, Cancelled}
  {
    assert forall i :: 0 <= i < |a.tasks| ==> a.tasks[i] in a.tasks;
  }

  /** Of the judge tasks the first open one is cancelled. */
  lemma {:induction false} CancelJudgeTaskAt(tasks: seq<Task>, i: nat)
    requires i < |tasks|
    ensures CancelJudgeTask(tasks)[i] ==
      if tasks[i].kind == JudgeAssignTask && Open(tasks[i].status)
         && forall h :: 0 <= h < i ==> !(tasks[h].kind == JudgeAssignTask && Open(tasks[h].status))
      then Task(JudgeAssignTask, Cancelled) else tasks[i]
  {
    if i > 0 && !(tasks[0].kind == JudgeAssignTask && Open(tasks[0].status)) {
      CancelJudgeTaskAt(tasks[1..], i - 1);
      assert forall h :: 0 <= h < i - 1 ==> tasks[1..][h] == tasks[h + 1];
      assert forall h :: 1 <= h < i ==> tasks[h] == tasks[1..][h - 1];
    }
  }

  /** The tasks of an appeal handed to a judge: the distribution tasks are completed, a judge task that was open is
      cancelled, an assigned judge task is added, and every other task stays. */
  predicate HandedOver(before: Appeal, after: Appeal) {
    && after.uuid == before.uuid && |after.tasks| == |before.tasks| + 1
    && after.tasks[|before.tasks|] == Task(JudgeAssignTask, Assigned)
    && forall i :: 0 <= i < |before.tasks| ==>
         after.tasks[i] == if before.tasks[i].kind == DistributionTask then Task(DistributionTask, Completed)
                           else if FirstOpenJudgeTask(before.tasks, i) then Task(JudgeAssignTask, Cancelled)
                           else before.tasks[i]
  }

  predicate FirstOpenJudgeTask(tasks: seq<Task>, i: nat)
    requires i < |tasks|
  {
    && tasks[i].kind == JudgeAssignTask && tasks[i].status in {Assigned, InProgress, OnHold}
    && forall h :: 0 <= h < i && tasks[h].kind == JudgeAssignTask ==> tasks[h].status in {Completed, Cancelled}
  }

  lemma {:induction false} AssignToJudgeHandsOver(a: Appeal)
    ensures HandedOver(a, AssignToJudge(a))
  {
    forall i | 0 <= i < |a.tasks|
      ensures CancelJudgeTask(a.tasks)[i] == if FirstOpenJudgeTask(a.tasks, i) then Task(JudgeAssignTask, Cancelled) else a.tasks[i]
    {
      CancelJudgeTaskAt(a.tasks, i);
    }
  }

  // ---- Records ---------------------------------------------------------------------------------------

  const UUID_LENGTH := 36
  const MARK := "-redistributed-"

  /** A recorded case; `appeal` is the appeal of its task. */
  datatype Case = Case(caseId: string, appeal: nat, distribution: nat)

  datatype Registry = Registry(appeals: seq<Appeal>, cases: seq<Case>)

  function FindCase(cases: seq<Case>, caseId: string): (k: nat)
    ensures k <= |cases|
    ensures k < |cases| ==> cases[k].caseId == caseId
    ensures forall i :: 0 <= i < k ==> cases[i].caseId != caseId
  {
    if cases == [] || cases[0].caseId == caseId then 0 else 1 + FindCase(cases[1..], caseId)
  }

  function Renamed(caseId: string, today: string): string { caseId + MARK + today }

  /** The table after the record at `k` gave up its id `uuid` to a new record. */
  function Replaced(cases: seq<Case>, k: nat, uuid: string, name: string, appeal: nat, distribution: nat): (r: seq<Case>)
    requires k < |cases|
    ensures |r| == |cases| + 1 && r[|cases|] == Case(uuid, appeal, distribution)
    ensures forall i :: 0 <= i < |cases| ==> r[i] == if i == k then cases[k].(caseId := name) else cases[i]
  {
    cases[k := cases[k].(caseId := name)] + [Case(uuid, appeal, distribution)]
  }

  /** Records one handed-out appeal; `None` when the new name of the old record is already taken. */
  function RecordCase(cases: seq<Case>, appeal: nat, a: Appeal, distribution: nat, today: string): Option<seq<Case>> {
    var k := FindCase(cases, a.uuid);
    if k == |cases| then Some(cases + [Case(a.uuid, appeal, distribution)])
    else if !CanRedistribute(a) then Some(cases)
    else if FindCase(cases, Renamed(a.uuid, today)) < |cases| then None
    else Some(Replaced(cases, k, a.uuid, Renamed(a.uuid, today), appeal, distribution))
  }

  predicate Picks(appeals: seq<Appeal>, picked: seq<nat>) {
    && (forall i :: 0 <= i < |picked| ==> picked[i] < |appeals| && Ready(appeals[picked[i]]))
    && forall i, j :: 0 <= i < j < |picked| ==> picked[i] != picked[j]
  }

  function AssignAll(appeals: seq<Appeal>, picked: seq<nat>): (r: seq<Appeal>)
    requires forall i :: 0 <= i < |picked| ==> picked[i] < |appeals|
    ensures |r| == |appeals|
    ensures forall a :: 0 <= a < |r| ==> r[a].uuid == appeals[a].uuid
    ensures forall a :: 0 <= a < |r| && a !in picked ==> r[a] == appeals[a]
  {
    if picked == [] then appeals
    else
      var n := |picked| - 1;
      var before := AssignAll(appeals, picked[..n]);
      before[picked[n] := AssignToJudge(before[picked[n]])]
  }

  function RecordAll(cases: seq<Case>, appeals: seq<Appeal>, picked: seq<nat>, distribution: nat, today: string): Option<seq<Case>>
    requires forall i :: 0 <= i < |picked| ==> picked[i] < |appeals|
  {
    if picked == [] then Some(cases)
    else
      var n := |picked| - 1;
      var before := RecordAll(cases, appeals, picked[..n], distribution, today);
      if before.None? then None
      else RecordCase(before.value, picked[n], appeals[picked[n]], distribution, today)
  }

  /** The whole distribution, or nothing at all if a record could not be renamed. */
  function Distribute(s: Registry, picked: seq<nat>, distribution: nat, today: string): Registry
    requires Picks(s.appeals, picked)
  {
    var appeals := AssignAll(s.appeals, picked);
    var cases := RecordAll(s.cases, appeals, picked, distribution, today);
    if cases.None? then s else Registry(appeals, cases.value)
  }

  // ---- What every distribution keeps ---------------------------------------------------------------------

  predicate UuidsDistinct(appeals: seq<Appeal>) {
    && (forall a :: 0 <= a < |appeals| ==> |appeals[a].uuid| == UUID_LENGTH)
    && forall a, b :: 0 <= a < b < |appeals| ==> appeals[a].uuid != appeals[b].uuid
  }

  predicate CaseIdsDistinct(cases: seq<Case>) {
    forall i, j :: 0 <= i < j < |cases| ==> cases[i].caseId != cases[j].caseId
  }

  /** A record is under the uuid of its appeal, or under a longer name that starts with it. */
  predicate NamedAfter(c: Case, a: Appeal) { a.uuid <= c.caseId }

  predicate HasOwnRecord(cases: seq<Case>, appeals: seq<Appeal>, appeal: nat)
    requires appeal < |appeals|
  {
    exists i :: 0 <= i < |cases| && cases[i].appeal == appeal && cases[i].caseId == appeals[appeal].uuid
  }

  predicate Sound(appeals: seq<Appeal>, cases: seq<Case>) {
    && UuidsDistinct(appeals) && CaseIdsDistinct(cases)
    && (forall i :: 0 <= i < |cases| ==> cases[i].appeal < |appeals| && NamedAfter(cases[i], appeals[cases[i].appeal]))
    && forall i :: 0 <= i < |cases| ==> HasOwnRecord(cases, appeals, cases[i].appeal)
  }

  /** No record is lost: each keeps its place, its appeal and its distribution. */
  predicate NoneLost(before: seq<Case>, after: seq<Case>) {
    && |before| <= |after|
    && forall i :: 0 <= i < |before| ==> after[i].appeal == before[i].appeal && after[i].distribution == before[i].distribution
  }

  /** The record found under a uuid is the one of that appeal. */
  lemma {:induction false} FoundIsOwn(appeals: seq<Appeal>, cases: seq<Case>, appeal: nat, k: nat)
    requires Sound(appeals, cases) && appeal < |appeals| && k < |cases| && cases[k].caseId == appeals[appeal].uuid
    ensures cases[k].appeal == appeal
  {
    var other := cases[k].appeal;
    assert appeals[other].uuid <= cases[k].caseId;
    assert |appeals[other].uuid| == |appeals[appeal].uuid|;
    assert appeals[other].uuid == appeals[appeal].uuid;
  }

  lemma {:induction false} NewRecordIsSound(appeals: seq<Appeal>, cases: seq<Case>, appeal: nat, distribution: nat)
    requires Sound(appeals, cases) && appeal < |appeals| && FindCase(cases, appeals[appeal].uuid) == |cases|
    ensures var after := cases + [Case(appeals[appeal].uuid, appeal, distribution)];
            Sound(appeals, after) && NoneLost(cases, after) && HasOwnRecord(after, appeals, appeal)
  {
    var after := cases + [Case(appeals[appeal].uuid, appeal, distribution)];
    assert after[|cases|].appeal == appeal && after[|cases|].caseId == appeals[appeal].uuid;
    forall i | 0 <= i < |cases|
      ensures HasOwnRecord(after, appeals, cases[i].appeal)
    {
      var j :| 0 <= j < |cases| && cases[j].appeal == cases[i].appeal && cases[j].caseId == appeals[cases[i].appeal].uuid;
      assert after[j] == cases[j];
    }
  }

  lemma {:induction false} ReplacedIdsDistinct(cases: seq<Case>, k: nat, uuid: string, name: string, appeal: nat,
                                               distribution: nat)
    requires CaseIdsDistinct(cases) && k < |cases| && cases[k].caseId == uuid && name != uuid
    requires forall i :: 0 <= i < |cases| ==> cases[i].caseId != name
    ensures CaseIdsDistinct(Replaced(cases, k, uuid, name, appeal, distribution))
  {
  }

  lemma {:induction false} ReplacedOwnRecords(appeals: seq<Appeal>, cases: seq<Case>, appeal: nat, distribution: nat,
                                              name: string, k: nat)
    requires Sound(appeals, cases) && appeal < |appeals| && k < |cases| && cases[k] == Case(appeals[appeal].uuid, appeal, cases[k].distribution)
    ensures var after := Replaced(cases, k, appeals[appeal].uuid, name, appeal, distribution);
            && HasOwnRecord(after, appeals, appeal)
            && forall i :: 0 <= i < |cases| ==> HasOwnRecord(after, appeals, cases[i].appeal)
  {
    var after := Replaced(cases, k, appeals[appeal].uuid, name, appeal, distribution);
    assert HasOwnRecord(after, appeals, appeal);
    forall i | 0 <= i < |cases| && cases[i].appeal != appeal
      ensures HasOwnRecord(after, appeals, cases[i].appeal)
    {
      assert HasOwnRecord(cases, appeals, cases[i].appeal);
      var j :| 0 <= j < |cases| && cases[j].appeal == cases[i].appeal && cases[j].caseId == appeals[cases[i].appeal].uuid;
      assert after[j] == cases[j];
    }
  }

  lemma {:induction false} RenamingIsSound(appeals: seq<Appeal>, cases: seq<Case>, appeal: nat, distribution: nat,
                                           name: string, k: nat)
    requires Sound(appeals, cases) && appeal < |appeals| && k < |cases| && cases[k].caseId == appeals[appeal].uuid
    requires appeals[appeal].uuid <= name && name != appeals[appeal].uuid
    requires forall i :: 0 <= i < |cases| ==> cases[i].caseId != name
    ensures var after := Replaced(cases, k, appeals[appeal].uuid, name, appeal, distribution);
            Sound(appeals, after) && NoneLost(cases, after) && HasOwnRecord(after, appeals, appeal)
  {
    var after := Replaced(cases, k, appeals[appeal].uuid, name, appeal, distribution);
    FoundIsOwn(appeals, cases, appeal, k);
    ReplacedIdsDistinct(cases, k, appeals[appeal].uuid, name, appeal, distribution);
    ReplacedOwnRecords(appeals, cases, appeal, distribution, name, k);
    assert forall i :: 0 <= i < |cases| ==> after[i].appeal == cases[i].appeal;
  }

  /** Recording keeps ids unique and loses nothing, and the appeal has its own record afterwards. */
  lemma {:induction false} RecordCaseIsSound(appeals: seq<Appeal>, cases: seq<Case>, appeal: nat, distribution: nat,
                                             today: string)
    requires Sound(appeals, cases) && appeal < |appeals|
    requires RecordCase(cases, appeal, appeals[appeal], distribution, today).Some?
    ensures var after := RecordCase(cases, appeal, appeals[appeal], distribution, today).value;
            Sound(appeals, after) && NoneLost(cases, after) && HasOwnRecord(after, appeals, appeal)
  {
    var k := FindCase(cases, appeals[appeal].uuid);
    if k == |cases| {
      NewRecordIsSound(appeals, cases, appeal, distribution);
    } else {
      FoundIsOwn(appeals, cases, appeal, k);
      if CanRedistribute(appeals[appeal]) {
        var uuid := appeals[appeal].uuid;
        assert uuid <= Renamed(uuid, today) && |Renamed(uuid, today)| > |uuid|;
        RenamingIsSound(appeals, cases, appeal, distribution, Renamed(uuid, today), k);
      }
    }
  }

  lemma {:induction false} NoneLostTwice(a: seq<Case>, b: seq<Case>, c: seq<Case>)
    requires NoneLost(a, b) && NoneLost(b, c)
    ensures NoneLost(a, c)
  {
  }

  /** An appeal that owns some record in a sound registry has one under its own uuid. */
  lemma {:induction false} OwnRecordStays(appeals: seq<Appeal>, before: seq<Case>, after: seq<Case>, appeal: nat)
    requires appeal < |appeals| && Sound(appeals, after) && NoneLost(before, after) && HasOwnRecord(before, appeals, appeal)
    ensures HasOwnRecord(after, appeals, appeal)
  {
    var i :| 0 <= i < |before| && before[i].appeal == appeal && before[i].caseId == appeals[appeal].uuid;
    assert after[i].appeal == appeal;
  }

  predicate AllRecorded(cases: seq<Case>, appeals: seq<Appeal>, picked: seq<nat>) {
    forall i :: 0 <= i < |picked| ==> picked[i] < |appeals| && HasOwnRecord(cases, appeals, picked[i])
  }

  lemma {:induction false} RecordedStay(appeals: seq<Appeal>, before: seq<Case>, after: seq<Case>, picked: seq<nat>)
    requires Sound(appeals, after) && NoneLost(before, after) && picked != []
    requires AllRecorded(before, appeals, picked[..|picked| - 1])
    requires picked[|picked| - 1] < |appeals| && HasOwnRecord(after, appeals, picked[|picked| - 1])
    ensures AllRecorded(after, appeals, picked)
  {
    forall i | 0 <= i < |picked| - 1
      ensures picked[i] < |appeals| && HasOwnRecord(after, appeals, picked[i])
    {
      assert picked[..|picked| - 1][i] == picked[i];
      OwnRecordStays(appeals, before, after, picked[i]);
    }
  }

  lemma {:induction false} RecordAllIsSound(cases: seq<Case>, appeals: seq<Appeal>, picked: seq<nat>,
                                            distribution: nat, today: string)
    requires Sound(appeals, cases) && forall i :: 0 <= i < |picked| ==> picked[i] < |appeals|
    requires RecordAll(cases, appeals, picked, distribution, today).Some?
    ensures var after := RecordAll(cases, appeals, picked, distribution, today).value;
            Sound(appeals, after) && NoneLost(cases, after) && AllRecorded(after, appeals, picked)
  {
    if picked != [] {
      var n := |picked| - 1;
      RecordAllIsSound(cases, appeals, picked[..n], distribution, today);
      var before := RecordAll(cases, appeals, picked[..n], distribution, today).value;
      var after := RecordAll(cases, appeals, picked, distribution, today).value;
      RecordCaseIsSound(appeals, before, picked[n], distribution, today);
      NoneLostTwice(cases, before, after);
      RecordedStay(appeals, before, after, picked);
    }
  }

  lemma {:induction false} AssignAllEndsReadiness(appeals: seq<Appeal>, picked: seq<nat>)
    requires forall i :: 0 <= i < |picked| ==> picked[i] < |appeals|
    ensures forall i :: 0 <= i < |picked| ==> !Ready(AssignAll(appeals, picked)[picked[i]])
  {
    if picked != [] {
      var n := |picked| - 1;
      AssignAllEndsReadiness(appeals, picked[..n]);
      var before := AssignAll(appeals, picked[..n]);
      AssignedIsNotReady(before[picked[n]]);
      assert forall i :: 0 <= i < n ==> picked[..n][i] == picked[i];
    }
  }

  lemma {:induction false} SameUuidsSound(appeals: seq<Appeal>, others: seq<Appeal>, cases: seq<Case>)
    requires Sound(appeals, cases) && |others| == |appeals|
    requires forall a :: 0 <= a < |appeals| ==> others[a].uuid == appeals[a].uuid
    ensures Sound(others, cases)
  {
    forall i | 0 <= i < |cases|
      ensures HasOwnRecord(cases, others, cases[i].appeal)
    {
      assert HasOwnRecord(cases, appeals, cases[i].appeal);
    }
  }

  // ---- Runs ------------------------------------------------------------------------------------------------

  /** `TasksChanged` is anything else that happens to the tasks of an appeal. */
  datatype Event = Distributed(picked: seq<nat>, distribution: nat, today: string) | TasksChanged(a: nat, tasks: seq<Task>)

  function Step(s: Registry, ev: Event): Registry {
    match ev
    case Distributed(picked, distribution, today) =>
      if Picks(s.appeals, picked) then Distribute(s, picked, distribution, today) else s
    case TasksChanged(a, tasks) =>
      if a < |s.appeals| then s.(appeals := s.appeals[a := s.appeals[a].(tasks := tasks)]) else s
  }

  lemma {:induction false} DistributeIsSound(s: Registry, picked: seq<nat>, distribution: nat, today: string)
    requires Sound(s.appeals, s.cases) && Picks(s.appeals, picked)
    ensures var after := Distribute(s, picked, distribution, today);
            && Sound(after.appeals, after.cases) && NoneLost(s.cases, after.cases)
            && |after.appeals| == |s.appeals|
            && (after == s || forall i :: 0 <= i < |picked| ==>
                  HasOwnRecord(after.cases, after.appeals, picked[i]) && !Ready(after.appeals[picked[i]]))
  {
    var appeals := AssignAll(s.appeals, picked);
    SameUuidsSound(s.appeals, appeals, s.cases);
    if RecordAll(s.cases, appeals, picked, distribution, today).Some? {
      RecordAllIsSound(s.cases, appeals, picked, distribution, today);
      assert AllRecorded(Distribute(s, picked, distribution, today).cases, appeals, picked);
      AssignAllEndsReadiness(s.appeals, picked);
    }
  }

  lemma {:induction false} StepIsSound(s: Registry, ev: Event)
    requires Sound(s.appeals, s.cases)
    ensures var after := Step(s, ev);
            Sound(after.appeals, after.cases) && NoneLost(s.cases, after.cases) && |after.appeals| == |s.appeals|
  {
    if ev.Distributed? && Picks(s.appeals, ev.picked) {
      DistributeIsSound(s, ev.picked, ev.distribution, ev.today);
    } else if ev.TasksChanged? && ev.a < |s.appeals| {
      SameUuidsSound(s.appeals, Step(s, ev).appeals, s.cases);
    }
  }

  /** Over every run ids stay unique, and each appeal with a record has exactly one under its own uuid. */
  lemma {:induction false} RegistryIsSound(s: Registry, events: seq<Event>)
    requires UuidsDistinct(s.appeals) && s.cases == []
    ensures var end := After(Step, s, events);
            Sound(end.appeals, end.cases) && |end.appeals| == |s.appeals|
  {
    if events != [] {
      var n := |events| - 1;
      RegistryIsSound(s, events[..n]);
      StepIsSound(After(Step, s, events[..n]), events[n]);
    }
  }

  /** Over every run no record is lost. */
  lemma {:induction false} RecordsStay(s: Registry, events: seq<Event>)
    requires Sound(s.appeals, s.cases)
    ensures var end := After(Step, s, events);
            Sound(end.appeals, end.cases) && NoneLost(s.cases, end.cases) && |end.appeals| == |s.appeals|
  {
    if events != [] {
      var n := |events| - 1;
      RecordsStay(s, events[..n]);
      StepIsSound(After(Step, s, events[..n]), events[n]);
      NoneLostTwice(s.cases, After(Step, s, events[..n]).cases, After(Step, s, events).cases);
    }
  }

  /** The event gives the appeal an assigned distribution task. */
  predicate Reopens(ev: Event, a: nat) {
    ev.TasksChanged? && ev.a == a && Task(DistributionTask, Assigned) in ev.tasks
  }

  lemma {:induction false} UnreadyStep(s: Registry, ev: Event, a: nat)
    requires a < |s.appeals| && !Ready(s.appeals[a])
    ensures |Step(s, ev).appeals| == |s.appeals|
    ensures Ready(Step(s, ev).appeals[a]) <==> Reopens(ev, a)
  {
    if ev.Distributed? && Picks(s.appeals, ev.picked) {
      assert a !in ev.picked;
    }
  }

  /** A handed-out appeal is not handed out again until its distribution task is open again. */
  lemma {:induction false} NotHandedOutAgain(s: Registry, picked: seq<nat>, distribution: nat, today: string, i: nat,
                                             later: seq<Event>)
    requires Sound(s.appeals, s.cases) && Picks(s.appeals, picked) && i < |picked|
    requires Distribute(s, picked, distribution, today) != s
    requires forall k :: 0 <= k < |later| ==> !Reopens(later[k], picked[i])
    ensures var end := After(Step, Distribute(s, picked, distribution, today), later);
            && Sound(end.appeals, end.cases) && picked[i] < |end.appeals| && !Ready(end.appeals[picked[i]])
            && forall again :: Picks(end.appeals, again) ==> picked[i] !in again
    decreases |later|
  {
    var after := Distribute(s, picked, distribution, today);
    DistributeIsSound(s, picked, distribution, today);
    if later != [] {
      var n := |later| - 1;
      NotHandedOutAgain(s, picked, distribution, today, i, later[..n]);
      var before := After(Step, after, later[..n]);
      UnreadyStep(before, later[n], picked[i]);
      StepIsSound(before, later[n]);
    }
  }

  /** One record is refused exactly when it has to be renamed and was renamed that day already. */
  lemma {:induction false} RecordClashIff(cases: seq<Case>, appeal: nat, a: Appeal, distribution: nat, today: string)
    ensures RecordCase(cases, appeal, a, distribution, today).None? <==>
      && CanRedistribute(a)
      && (exists k :: 0 <= k < |cases| && cases[k].caseId == a.uuid)
      && (exists k :: 0 <= k < |cases| && cases[k].caseId == a.uuid + MARK + today)
  {
  }

  predicate HasCase(cases: seq<Case>, caseId: string) {
    exists k :: 0 <= k < |cases| && cases[k].caseId == caseId
  }

  /** A record is there, may be replaced, and its new name is taken. */
  predicate Clashes(cases: seq<Case>, a: Appeal, today: string) {
    CanRedistribute(a) && HasCase(cases, a.uuid) && HasCase(cases, Renamed(a.uuid, today))
  }

  /** Recording other appeals neither makes nor takes away the ids that matter to this one. */
  lemma {:induction false} OthersDoNotMatter(cases: seq<Case>, appeals: seq<Appeal>, picked: seq<nat>,
                                             distribution: nat, today: string, a: nat)
    requires UuidsDistinct(appeals) && a < |appeals| && forall i :: 0 <= i < |picked| ==> picked[i] < |appeals| && picked[i] != a
    requires RecordAll(cases, appeals, picked, distribution, today).Some?
    ensures var after := RecordAll(cases, appeals, picked, distribution, today).value;
            && (HasCase(after, appeals[a].uuid) <==> HasCase(cases, appeals[a].uuid))
            && (HasCase(after, Renamed(appeals[a].uuid, today)) <==> HasCase(cases, Renamed(appeals[a].uuid, today)))
  {
    if picked != [] {
      var n := |picked| - 1;
      OthersDoNotMatter(cases, appeals, picked[..n], distribution, today, a);
      var before := RecordAll(cases, appeals, picked[..n], distribution, today).value;
      var uuid, other := appeals[a].uuid, appeals[picked[n]].uuid;
      NamesApart(uuid, other, today);
      RecordKeepsOtherIds(before, picked[n], appeals[picked[n]], distribution, today, uuid);
      RecordKeepsOtherIds(before, picked[n], appeals[picked[n]], distribution, today, Renamed(uuid, today));
    }
  }

  lemma {:induction false} NamesApart(uuid: string, other: string, today: string)
    requires |uuid| == |other| && uuid != other
    ensures uuid != Renamed(other, today) && Renamed(uuid, today) != other && Renamed(uuid, today) != Renamed(other, today)
  {
    assert Renamed(uuid, today)[..|uuid|] == uuid && Renamed(other, today)[..|uuid|] == other;
  }

  lemma {:induction false} RecordKeepsOtherIds(cases: seq<Case>, appeal: nat, a: Appeal, distribution: nat,
                                               today: string, caseId: string)
    requires RecordCase(cases, appeal, a, distribution, today).Some? && caseId != a.uuid && caseId != Renamed(a.uuid, today)
    ensures HasCase(RecordCase(cases, appeal, a, distribution, today).value, caseId) <==> HasCase(cases, caseId)
  {
    var after := RecordCase(cases, appeal, a, distribution, today).value;
    var k := FindCase(cases, a.uuid);
    if i :| 0 <= i < |cases| && cases[i].caseId == caseId {
      assert after[i].caseId == caseId;
    }
    if i :| 0 <= i < |after| && after[i].caseId == caseId {
      assert i < |cases| && cases[i].caseId == caseId;
    }
  }

  lemma {:induction false} RecordAllFailsIff(cases: seq<Case>, appeals: seq<Appeal>, picked: seq<nat>,
                                             distribution: nat, today: string)
    requires UuidsDistinct(appeals) && forall i :: 0 <= i < |picked| ==> picked[i] < |appeals|
    requires forall i, j :: 0 <= i < j < |picked| ==> picked[i] != picked[j]
    ensures RecordAll(cases, appeals, picked, distribution, today).None? <==>
      exists i :: 0 <= i < |picked| && Clashes(cases, appeals[picked[i]], today)
  {
    if picked != [] {
      var n := |picked| - 1;
      RecordAllFailsIff(cases, appeals, picked[..n], distribution, today);
      assert forall i :: 0 <= i < n ==> picked[..n][i] == picked[i];
      var before := RecordAll(cases, appeals, picked[..n], distribution, today);
      if before.Some? {
        OthersDoNotMatter(cases, appeals, picked[..n], distribution, today, picked[n]);
        RecordClashIff(before.value, picked[n], appeals[picked[n]], distribution, today);
        assert Clashes(before.value, appeals[picked[n]], today) <==> Clashes(cases, appeals[picked[n]], today);
      }
    }
  }

  lemma {:induction false} AssignAllKeepsRedistribution(appeals: seq<Appeal>, picked: seq<nat>, a: nat)
    requires a < |appeals| && forall i :: 0 <= i < |picked| ==> picked[i] < |appeals|
    ensures CanRedistribute(AssignAll(appeals, picked)[a]) <==> CanRedistribute(appeals[a])
  {
    if picked != [] {
      var n := |picked| - 1;
      AssignAllKeepsRedistribution(appeals, picked[..n], a);
      AssignedIsNotReady(AssignAll(appeals, picked[..n])[picked[n]]);
    }
  }

  /** A whole distribution is rolled back exactly when one of the picked appeals, as it was before, has a
      record to be replaced whose name of the day is taken. */
  lemma {:induction false} RollbackIff(s: Registry, picked: seq<nat>, distribution: nat, today: string)
    requires UuidsDistinct(s.appeals) && Picks(s.appeals, picked)
    ensures RecordAll(s.cases, AssignAll(s.appeals, picked), picked, distribution, today).None? <==>
      exists i :: 0 <= i < |picked| && Clashes(s.cases, s.appeals[picked[i]], today)
    ensures picked != [] ==>
      (Distribute(s, picked, distribution, today) == s <==>
       exists i :: 0 <= i < |picked| && Clashes(s.cases, s.appeals[picked[i]], today))
  {
    var appeals := AssignAll(s.appeals, picked);
    RecordAllFailsIff(s.cases, appeals, picked, distribution, today);
    forall i | 0 <= i < |picked|
      ensures Clashes(s.cases, appeals[picked[i]], today) <==> Clashes(s.cases, s.appeals[picked[i]], today)
    {
      AssignAllKeepsRedistribution(s.appeals, picked, picked[i]);
    }
    if picked != [] {
      AssignAllEndsReadiness(s.appeals, picked);
      assert Ready(s.appeals[picked[0]]) && !Ready(appeals[picked[0]]);
    }
  }

  // ---- What a distribution records ---------------------------------------------------------------------------

  /** One record made: a record under the uuid is renamed in its place when the appeal may be distributed again, and a
      new one is added unless there is a record that has to stay. */
  lemma {:induction false} RecordCaseIs(cases: seq<Case>, appeal: nat, a: Appeal, distribution: nat, today: string)
    requires RecordCase(cases, appeal, a, distribution, today).Some?
    ensures var after := RecordCase(cases, appeal, a, distribution, today).value;
            && (!HasCase(cases, a.uuid) ==> after == cases + [Case(a.uuid, appeal, distribution)])
            && (HasCase(cases, a.uuid) && !CanRedistribute(a) ==> after == cases)
            && (HasCase(cases, a.uuid) && CanRedistribute(a) ==>
                  exists k :: 0 <= k < |cases| && cases[k].caseId == a.uuid
                    && after == cases[k := cases[k].(caseId := a.uuid + "-redistributed-" + today)]
                                + [Case(a.uuid, appeal, distribution)])
  {
  }

  /** The record makes way for a new one of its appeal. */
  predicate MakesWay(c: Case, appeals: seq<Appeal>, picked: seq<nat>)
    requires forall i :: 0 <= i < |picked| ==> picked[i] < |appeals|
  {
    exists j :: 0 <= j < |picked| && c.caseId == appeals[picked[j]].uuid && CanRedistribute(appeals[picked[j]])
  }

  function RecordAfter(c: Case, appeals: seq<Appeal>, picked: seq<nat>, today: string): Case
    requires forall i :: 0 <= i < |picked| ==> picked[i] < |appeals|
  {
    if MakesWay(c, appeals, picked) then c.(caseId := c.caseId + "-redistributed-" + today) else c
  }

  predicate GetsRecord(cases: seq<Case>, a: Appeal) { !HasCase(cases, a.uuid) || CanRedistribute(a) }

  /** The records added, in the order of the appeals handed out. */
  function NewCases(cases: seq<Case>, appeals: seq<Appeal>, picked: seq<nat>, distribution: nat): (r: seq<Case>)
    requires forall i :: 0 <= i < |picked| ==> picked[i] < |appeals|
    ensures forall c :: c in r <==> exists j :: 0 <= j < |picked| && GetsRecord(cases, appeals[picked[j]])
                                      && c == Case(appeals[picked[j]].uuid, picked[j], distribution)
  {
    if picked == [] then []
    else
      var n := |picked| - 1;
      var before := NewCases(cases, appeals, picked[..n], distribution);
      if GetsRecord(cases, appeals[picked[n]]) then before + [Case(appeals[picked[n]].uuid, picked[n], distribution)]
      else before
  }

  /** The table is the old one with the records that make way renamed in their places, and the new ones after it. */
  predicate RecordedFor(cases: seq<Case>, appeals: seq<Appeal>, picked: seq<nat>, distribution: nat, today: string,
                        after: seq<Case>)
    requires forall i :: 0 <= i < |picked| ==> picked[i] < |appeals|
  {
    && |cases| <= |after| && after[|cases|..] == NewCases(cases, appeals, picked, distribution)
    && forall i :: 0 <= i < |cases| ==> after[i] == RecordAfter(cases[i], appeals, picked, today)
  }

  /** Where the next uuid stands in the table so far. */
  lemma {:induction false} UuidStays(cases: seq<Case>, appeals: seq<Appeal>, picked: seq<nat>, distribution: nat,
                                     today: string, after: seq<Case>, a: nat, i: nat)
    requires UuidsDistinct(appeals) && a < |appeals| && i < |after|
    requires forall j :: 0 <= j < |picked| ==> picked[j] < |appeals| && picked[j] != a
    requires RecordedFor(cases, appeals, picked, distribution, today, after)
    ensures after[i].caseId == appeals[a].uuid <==> i < |cases| && cases[i].caseId == appeals[a].uuid
    ensures i < |cases| && cases[i].caseId == appeals[a].uuid ==> after[i] == cases[i]
  {
    if i >= |cases| {
      assert after[i] == after[|cases|..][i - |cases|];
      assert after[i] in NewCases(cases, appeals, picked, distribution);
    } else if MakesWay(cases[i], appeals, picked) {
      var j :| 0 <= j < |picked| && cases[i].caseId == appeals[picked[j]].uuid;
      assert |after[i].caseId| > |appeals[a].uuid|;
    }
  }

  lemma {:induction false} OneMoreRecordAfter(c: Case, appeals: seq<Appeal>, picked: seq<nat>, today: string)
    requires picked != [] && forall i :: 0 <= i < |picked| ==> picked[i] < |appeals|
    ensures var n := |picked| - 1;
            RecordAfter(c, appeals, picked, today) ==
              if c.caseId == appeals[picked[n]].uuid && CanRedistribute(appeals[picked[n]])
              then c.(caseId := c.caseId + "-redistributed-" + today) else RecordAfter(c, appeals, picked[..n], today)
  {
    var n := |picked| - 1;
    assert forall j :: 0 <= j < n ==> picked[..n][j] == picked[j];
    assert MakesWay(c, appeals, picked) <==>
      (c.caseId == appeals[picked[n]].uuid && CanRedistribute(appeals[picked[n]])) || MakesWay(c, appeals, picked[..n]);
  }

  lemma {:induction false} OneMoreRecorded(cases: seq<Case>, appeals: seq<Appeal>, picked: seq<nat>, distribution: nat,
                                           today: string, before: seq<Case>)
    requires UuidsDistinct(appeals) && CaseIdsDistinct(cases) && picked != []
    requires forall i :: 0 <= i < |picked| ==> picked[i] < |appeals|
    requires forall i, j :: 0 <= i < j < |picked| ==> picked[i] != picked[j]
    requires RecordedFor(cases, appeals, picked[..|picked| - 1], distribution, today, before)
    requires RecordCase(before, picked[|picked| - 1], appeals[picked[|picked| - 1]], distribution, today).Some?
    ensures var x := picked[|picked| - 1];
            RecordedFor(cases, appeals, picked, distribution, today, RecordCase(before, x, appeals[x], distribution, today).value)
  {
    var n := |picked| - 1;
    var x, a := picked[n], appeals[picked[n]];
    var after := RecordCase(before, x, a, distribution, today).value;
    forall i | 0 <= i < |before|
      ensures before[i].caseId == a.uuid <==> i < |cases| && cases[i].caseId == a.uuid
      ensures i < |cases| && cases[i].caseId == a.uuid ==> before[i] == cases[i]
    {
      UuidStays(cases, appeals, picked[..n], distribution, today, before, x, i);
    }
    assert HasCase(before, a.uuid) <==> HasCase(cases, a.uuid) by {
      if i :| 0 <= i < |cases| && cases[i].caseId == a.uuid {
        assert before[i].caseId == a.uuid;
      }
    }
    RecordCaseIs(before, x, a, distribution, today);
    forall i | 0 <= i < |cases|
      ensures after[i] == RecordAfter(cases[i], appeals, picked, today)
    {
      OneMoreRecordAfter(cases[i], appeals, picked, today);
    }
    assert after[|cases|..] == before[|cases|..] + (if GetsRecord(cases, a) then [Case(a.uuid, x, distribution)] else []);
  }

  lemma {:induction false} RecordAllIs(cases: seq<Case>, appeals: seq<Appeal>, picked: seq<nat>, distribution: nat,
                                       today: string)
    requires UuidsDistinct(appeals) && CaseIdsDistinct(cases)
    requires forall i :: 0 <= i < |picked| ==> picked[i] < |appeals|
    requires forall i, j :: 0 <= i < j < |picked| ==> picked[i] != picked[j]
    requires RecordAll(cases, appeals, picked, distribution, today).Some?
    ensures RecordedFor(cases, appeals, picked, distribution, today,
                        RecordAll(cases, appeals, picked, distribution, today).value)
  {
    if picked != [] {
      var n := |picked| - 1;
      RecordAllIs(cases, appeals, picked[..n], distribution, today);
      OneMoreRecorded(cases, appeals, picked, distribution, today,
                      RecordAll(cases, appeals, picked[..n], distribution, today).value);
    }
  }

  lemma {:induction false} AssignAllHandsOver(appeals: seq<Appeal>, picked: seq<nat>, a: nat)
    requires a < |appeals| && forall i :: 0 <= i < |picked| ==> picked[i] < |appeals|
    requires forall i, j :: 0 <= i < j < |picked| ==> picked[i] != picked[j]
    ensures AssignAll(appeals, picked)[a] == if a in picked then AssignToJudge(appeals[a]) else appeals[a]
  {
    if picked != [] {
      var n := |picked| - 1;
      AssignAllHandsOver(appeals, picked[..n], a);
      assert picked == picked[..n] + [picked[n]];
      if a == picked[n] {
        assert a !in picked[..n];
      }
    }
  }

  /** What a distribution that goes through makes of the tables: each picked appeal is handed to the judge and the
      others stay; of the records there were, those of picked appeals that may be distributed again keep their place,
      appeal and distribution under the name of the day, and the others stay; and a record of this distribution is
      added for each picked appeal that had none or may be distributed again, and for no other. */
  lemma {:induction false} DistributionRecords(s: Registry, picked: seq<nat>, distribution: nat, today: string)
    requires Sound(s.appeals, s.cases) && Picks(s.appeals, picked) && Distribute(s, picked, distribution, today) != s
    ensures var after := Distribute(s, picked, distribution, today);
            && |after.appeals| == |s.appeals|
            && (forall a :: 0 <= a < |s.appeals| && a in picked ==> HandedOver(s.appeals[a], after.appeals[a]))
            && (forall a :: 0 <= a < |s.appeals| && a !in picked ==> after.appeals[a] == s.appeals[a])
            && RecordedFor(s.cases, s.appeals, picked, distribution, today, after.cases)
  {
    var appeals := AssignAll(s.appeals, picked);
    forall a | 0 <= a < |s.appeals|
      ensures a in picked ==> HandedOver(s.appeals[a], appeals[a])
      ensures CanRedistribute(appeals[a]) <==> CanRedistribute(s.appeals[a])
    {
      AssignAllHandsOver(s.appeals, picked, a);
      AssignToJudgeHandsOver(s.appeals[a]);
      AssignAllKeepsRedistribution(s.appeals, picked, a);
    }
    RecordAllIs(s.cases, appeals, picked, distribution, today);
    RecordedForSame(s.cases, appeals, s.appeals, picked, distribution, today, Distribute(s, picked, distribution, today).cases);
  }

  lemma {:induction false} RecordedForSame(cases: seq<Case>, appeals: seq<Appeal>, others: seq<Appeal>,
                                           picked: seq<nat>, distribution: nat, today: string, after: seq<Case>)
    requires |others| == |appeals| && forall i :: 0 <= i < |picked| ==> picked[i] < |appeals|
    requires forall a :: 0 <= a < |appeals| ==>
      others[a].uuid == appeals[a].uuid && (CanRedistribute(others[a]) <==> CanRedistribute(appeals[a]))
    requires RecordedFor(cases, appeals, picked, distribution, today, after)
    ensures RecordedFor(cases, others, picked, distribution, today, after)
  {
    SameNewCases(cases, appeals, others, picked, distribution);
    forall i | 0 <= i < |cases|
      ensures MakesWay(cases[i], appeals, picked) <==> MakesWay(cases[i], others, picked)
    {
    }
  }

  lemma {:induction false} SameNewCases(cases: seq<Case>, appeals: seq<Appeal>, others: seq<Appeal>, picked: seq<nat>,
                                        distribution: nat)
    requires |others| == |appeals| && forall i :: 0 <= i < |picked| ==> picked[i] < |appeals|
    requires forall a :: 0 <= a < |appeals| ==>
      others[a].uuid == appeals[a].uuid && (CanRedistribute(others[a]) <==> CanRedistribute(appeals[a]))
    ensures NewCases(cases, others, picked, distribution) == NewCases(cases, appeals, picked, distribution)
  {
    if picked != [] {
      SameNewCases(cases, appeals, others, picked[..|picked| - 1], distribution);
    }
  }

  /** The same for one picked appeal, in the terms of its own records. */
  lemma {:induction false} RedistributionRenames(s: Registry, picked: seq<nat>, distribution: nat, today: string, j: nat)
    requires Sound(s.appeals, s.cases) && Picks(s.appeals, picked) && Distribute(s, picked, distribution, today) != s
    requires j < |picked|
    ensures var a, after := s.appeals[picked[j]], Distribute(s, picked, distribution, today).cases;
            && |s.cases| <= |after|
            && (forall k :: 0 <= k < |s.cases| && s.cases[k].caseId == a.uuid ==>
                  && s.cases[k].appeal == picked[j]
                  && after[k] == if CanRedistribute(a)
                                 then Case(a.uuid + "-redistributed-" + today, picked[j], s.cases[k].distribution)
                                 else s.cases[k])
            && (Case(a.uuid, picked[j], distribution) in after[|s.cases|..] <==>
                  CanRedistribute(a) || forall k :: 0 <= k < |s.cases| ==> s.cases[k].caseId != a.uuid)
  {
    DistributionRecords(s, picked, distribution, today);
    var a, after := s.appeals[picked[j]], Distribute(s, picked, distribution, today).cases;
    forall k | 0 <= k < |s.cases| && s.cases[k].caseId == a.uuid
      ensures s.cases[k].appeal == picked[j] && (MakesWay(s.cases[k], s.appeals, picked) <==> CanRedistribute(a))
    {
      FoundIsOwn(s.appeals, s.cases, picked[j], k);
    }
    assert GetsRecord(s.cases, a) <==> Case(a.uuid, picked[j], distribution) in NewCases(s.cases, s.appeals, picked, distribution);
  }

  // ---- The same steps on the tables ------------------------------------------------------------------------

  class CaseRegistry {
    var appeals: seq<Appeal>
    var cases: seq<Case>

    function Value(): Registry
      reads this
    {
      Registry(appeals, cases)
    }

    /** Gives every picked appeal to the judge and closes its distribution tasks. */
    method AssignJudgeTasks(picked: seq<nat>)
      requires forall i :: 0 <= i < |picked| ==> picked[i] < |appeals|
      modifies this`appeals
      ensures appeals == AssignAll(old(appeals), picked)
    {
      var n := 0;
      while n < |picked|
        invariant 0 <= n <= |picked| && appeals == AssignAll(old(appeals), picked[..n])
      {
        assert picked[..n + 1][..n] == picked[..n];
        appeals := appeals[picked[n] := AssignToJudge(appeals[picked[n]])];
        n := n + 1;
      }
      assert picked[..n] == picked;
    }

    method RenameForRedistribution(k: nat, today: string) returns (ok: bool)
      requires k < |cases|
      modifies this`cases
      ensures ok <==> forall i :: 0 <= i < |old(cases)| ==> old(cases)[i].caseId != Renamed(old(cases)[k].caseId, today)
      ensures cases == if ok then old(cases)[k := old(cases)[k].(caseId := Renamed(old(cases)[k].caseId, today))] else old(cases)
    {
      var name := Renamed(cases[k].caseId, today);
      ok := FindCase(cases, name) == |cases|;
      if ok {
        cases := cases[k := cases[k].(caseId := name)];
      }
    }

    method RecordOne(appeal: nat, distribution: nat, today: string) returns (ok: bool)
      requires appeal < |appeals|
      modifies this`cases
      ensures RecordCase(old(cases), appeal, appeals[appeal], distribution, today) == if ok then Some(cases) else None
    {
      var uuid := appeals[appeal].uuid;
      var k := FindCase(cases, uuid);
      if k < |cases| {
        if !CanRedistribute(appeals[appeal]) {
          return true;
        }
        ok := RenameForRedistribution(k, today);
        if !ok {
          return;
        }
      }
      cases := cases + [Case(uuid, appeal, distribution)];
      return true;
    }

    /** One transaction: a clash of names undoes everything. */
    method DistributeAppeals(picked: seq<nat>, distribution: nat, today: string) returns (ok: bool)
      requires Picks(appeals, picked)
      modifies this
      ensures Value() == Distribute(old(Value()), picked, distribution, today)
      ensures ok <==> RecordAll(old(cases), AssignAll(old(appeals), picked), picked, distribution, today).Some?
    {
      var savedAppeals, savedCases := appeals, cases;
      AssignJudgeTasks(picked);
      ok := RecordPicked(picked, distribution, today);
      if !ok {
        appeals, cases := savedAppeals, savedCases;
      }
    }

    method RecordPicked(picked: seq<nat>, distribution: nat, today: string) returns (ok: bool)
      requires forall i :: 0 <= i < |picked| ==> picked[i] < |appeals|
      modifies this`cases
      ensures RecordAll(old(cases), appeals, picked, distribution, today) == if ok then Some(cases) else None
    {
      ok := true;
      var n := 0;
      while n < |picked| && ok
        invariant 0 <= n <= |picked|
        invariant RecordAll(old(cases), appeals, picked[..n], distribution, today) == if ok then Some(cases) else None
      {
        assert picked[..n + 1][..n] == picked[..n];
        ok := RecordOne(picked[n], distribution, today);
        n := n + 1;
      }
      assert picked[..|picked|] == picked;
      if !ok {
        ClashStays(old(cases), appeals, picked, distribution, today, n);
      }
    }
  }

  lemma {:induction false} ClashStays(cases: seq<Case>, appeals: seq<Appeal>, picked: seq<nat>, distribution: nat,
                                      today: string, n: nat)
    requires forall i :: 0 <= i < |picked| ==> picked[i] < |appeals|
    requires n <= |picked| && RecordAll(cases, appeals, picked[..n], distribution, today).None?
    ensures RecordAll(cases, appeals, picked, distribution, today).None?
    decreases |picked|
  {
    if n == |picked| {
      assert picked[..n] == picked;
    } else {
      var m := |picked| - 1;
      assert picked[..m][..n] == picked[..n];
      ClashStays(cases, appeals, picked[..m], distribution, today, n);
    }
  }
}
