/** The joined, filtered and grouped queries of a docket, and what they select appeal by appeal. A
    missing column is `None`; as in SQL, a comparison with it is not true. */
module Dockets {
  import opened Prelude

  // ---- Tables ------------------------------------------------------------------------------------

  const ROOT_TASK := "RootTask"
  const DISTRIBUTION_TASK := "DistributionTask"
  const ASSIGNED := "assigned"
  const COURT_REMAND := "court_remand"

  datatype AppealRow = AppealRow(docketType: string, streamType: Option<string>, establishedAt: Option<nat>)
  datatype TaskRow = TaskRow(appeal: nat, taskType: string, status: string)
  datatype ClaimantRow = ClaimantRow(appeal: nat, participant: string)
  datatype PersonRow = PersonRow(participant: string, dateOfBirth: Option<nat>)
  datatype MotionRow = MotionRow(person: nat, granted: Option<bool>, createdAt: nat)

  /** Rows are known by their position. `bornBy` is the date of birth of someone who is 75 today. */
  datatype Database = Database(
    appeals: seq<AppealRow>, tasks: seq<TaskRow>, claimants: seq<ClaimantRow>, people: seq<PersonRow>,
    motions: seq<MotionRow>, bornBy: nat)

  // ---- Joins -------------------------------------------------------------------------------------

  /** One joined row of an appeal: a task, a claimant, the claimant's person, and one of the person's
      motions, or none when the outer join finds none. */
  datatype Row = Row(task: nat, claimant: nat, person: nat, motion: Option<nat>)

  /** The outer join: the motions of a person, or the one missing motion. */
  function MotionsOf(db: Database, person: nat): (r: set<Option<nat>>)
    ensures forall m :: m in r && m.Some? ==> m.value < |db.motions| && db.motions[m.value].person == person
    ensures forall i :: 0 <= i < |db.motions| && db.motions[i].person == person ==> Some(i) in r
    ensures r != {}
  {
    var own := set i | 0 <= i < |db.motions| && db.motions[i].person == person :: Some(i);
    if own == {} then {None} else own
  }

  function TasksOf(db: Database, a: nat): set<nat> {
    set t | 0 <= t < |db.tasks| && db.tasks[t].appeal == a
  }

  /** Claimants of an appeal with their persons. */
  function ClaimantsOf(db: Database, a: nat): set<(nat, nat)> {
    set c, p | 0 <= c < |db.claimants| && 0 <= p < |db.people|
      && db.claimants[c].appeal == a && db.people[p].participant == db.claimants[c].participant :: (c, p)
  }

  /** The rows of an appeal after joining tasks, claimants, people and motions. */
  function JoinedRows(db: Database, a: nat): set<Row> {
    set t, cp, m | t in TasksOf(db, a) && cp in ClaimantsOf(db, a) && m in MotionsOf(db, cp.1) :: Row(t, cp.0, cp.1, m)
  }

  // ---- Filters -----------------------------------------------------------------------------------

  predicate GrantedSince(db: Database, a: nat, m: Option<nat>)
    requires a < |db.appeals|
  {
    && m.Some? && m.value < |db.motions| && db.motions[m.value].granted == Some(true)
    && db.appeals[a].establishedAt.Some? && db.motions[m.value].createdAt > db.appeals[a].establishedAt.value
  }

  predicate BornBy(db: Database, p: nat)
    requires p < |db.people|
  {
    db.people[p].dateOfBirth.Some? && db.people[p].dateOfBirth.value <= db.bornBy
  }

  predicate BornAfter(db: Database, p: nat)
    requires p < |db.people|
  {
    db.people[p].dateOfBirth.Some? && db.people[p].dateOfBirth.value > db.bornBy
  }

  predicate IsCourtRemand(a: AppealRow) { a.streamType == Some(COURT_REMAND) }

  predicate IsNotCourtRemand(a: AppealRow) { a.streamType.Some? && a.streamType.value != COURT_REMAND }

  /** The rows a query keeps before grouping. */
  predicate Keeps(db: Database, a: nat, person: nat, motion: Option<nat>, priority: bool)
    requires a < |db.appeals| && person < |db.people|
  {
    if priority then
      GrantedSince(db, a, motion) || BornBy(db, person) || IsCourtRemand(db.appeals[a])
    else
      BornAfter(db, person) && IsNotCourtRemand(db.appeals[a])
  }

  function KeptRows(db: Database, a: nat, priority: bool): set<Row>
    requires a < |db.appeals|
  {
    set row | row in JoinedRows(db, a) && row.person < |db.people| && Keeps(db, a, row.person, row.motion, priority)
  }

  // ---- Groups ------------------------------------------------------------------------------------

  datatype TaskTest = OpenRootTask | AssignedDistributionTask

  predicate Passes(t: TaskRow, test: TaskTest) {
    match test
    case OpenRootTask => t.taskType == ROOT_TASK && t.status !in ["completed", "cancelled"]
    case AssignedDistributionTask => t.taskType == DISTRIBUTION_TASK && t.status == ASSIGNED
  }

  function CountTasks(db: Database, rows: set<Row>, test: TaskTest): nat {
    |RowsPassing(db, rows, test)|
  }

  function CountGranted(db: Database, a: nat, rows: set<Row>): nat
    requires a < |db.appeals|
  {
    |set row | row in rows && GrantedSince(db, a, row.motion)|
  }

  /** A group of rows passes when the counts over its rows do. */
  predicate GroupPasses(db: Database, a: nat, rows: set<Row>, priority: bool, ready: bool)
    requires a < |db.appeals|
  {
    && rows != {}
    && CountTasks(db, rows, OpenRootTask) >= 1
    && (ready ==> CountTasks(db, rows, AssignedDistributionTask) >= 1)
    && (!priority ==> CountGranted(db, a, rows) == 0)
  }

  /** Without a priority only the tasks are joined. */
  function CountPlain(db: Database, a: nat, test: TaskTest): nat {
    |set t | t in TasksOf(db, a) && Passes(db.tasks[t], test)|
  }

  predicate PlainPasses(db: Database, a: nat, ready: bool) {
    CountPlain(db, a, OpenRootTask) >= 1 && (ready ==> CountPlain(db, a, AssignedDistributionTask) >= 1)
  }

  datatype Selected = NotAllowed | Ids(ids: set<nat>)

  /** `appeals(priority:, ready:)`: asking for appeals that are not ready is not allowed. */
  function Appeals(db: Database, docketType: string, priority: Option<bool>, ready: Option<bool>): Selected {
    if ready == Some(false) then NotAllowed
    else Ids(set a | 0 <= a < |db.appeals| && db.appeals[a].docketType == docketType &&
      if priority.None? then PlainPasses(db, a, ready == Some(true))
      else GroupPasses(db, a, KeptRows(db, a, priority.value), priority.value, ready == Some(true)))
  }

  // ---- What the queries select, appeal by appeal ---------------------------------------------------

  predicate HasTask(db: Database, a: nat, test: TaskTest) {
    exists t :: 0 <= t < |db.tasks| && db.tasks[t].appeal == a && Passes(db.tasks[t], test)
  }

  predicate Claims(db: Database, a: nat, p: nat)
    requires p < |db.people|
  {
    exists c :: 0 <= c < |db.claimants| && db.claimants[c].appeal == a && db.claimants[c].participant == db.people[p].participant
  }

  /** A motion granted to the person after the appeal was established. */
  predicate Advanced(db: Database, a: nat, p: nat)
    requires a < |db.appeals|
  {
    exists m :: 0 <= m < |db.motions| && db.motions[m].person == p && db.motions[m].granted == Some(true)
      && db.appeals[a].establishedAt.Some? && db.motions[m].createdAt > db.appeals[a].establishedAt.value
  }

  /** The motions that advance an appeal are those the query counts. */
  lemma {:induction false} AdvancedIff(db: Database, a: nat, p: nat)
    requires a < |db.appeals|
    ensures Advanced(db, a, p) <==>
      exists m: nat :: m < |db.motions| && db.motions[m].person == p && GrantedSince(db, a, Some(m))
  {
    if m :| 0 <= m < |db.motions| && db.motions[m].person == p && db.motions[m].granted == Some(true)
            && db.appeals[a].establishedAt.Some? && db.motions[m].createdAt > db.appeals[a].establishedAt.value {
      assert GrantedSince(db, a, Some(m));
    }
  }

  /** The appeal has a root task that is neither completed nor cancelled. */
  predicate Active(db: Database, a: nat) {
    exists t :: 0 <= t < |db.tasks| && db.tasks[t].appeal == a && db.tasks[t].taskType == "RootTask"
      && db.tasks[t].status != "completed" && db.tasks[t].status != "cancelled"
  }

  predicate AwaitsDistribution(db: Database, a: nat) {
    exists t :: 0 <= t < |db.tasks| && db.tasks[t].appeal == a && db.tasks[t].taskType == "DistributionTask"
      && db.tasks[t].status == "assigned"
  }

  lemma {:induction false} TaskTestsMean(db: Database, a: nat)
    ensures HasTask(db, a, OpenRootTask) <==> Active(db, a)
    ensures HasTask(db, a, AssignedDistributionTask) <==> AwaitsDistribution(db, a)
  {
  }

  /** Some claimant has a granted motion or is old enough, or the appeal is a court remand with a claimant. */
  predicate Priority(db: Database, a: nat)
    requires a < |db.appeals|
  {
    exists p :: 0 <= p < |db.people| && Claims(db, a, p)
      && (|| Advanced(db, a, p)
          || (db.people[p].dateOfBirth.Some? && db.people[p].dateOfBirth.value <= db.bornBy)
          || db.appeals[a].streamType == Some("court_remand"))
  }

  /** A claimant of the appeal known to be younger. */
  predicate YoungerClaimant(db: Database, a: nat, p: nat)
    requires p < |db.people|
  {
    Claims(db, a, p) && db.people[p].dateOfBirth.Some? && db.people[p].dateOfBirth.value > db.bornBy
  }

  /** Some claimant is known to be younger, none of those has a granted motion, and the appeal is known
      not to be a court remand. */
  predicate Nonpriority(db: Database, a: nat)
    requires a < |db.appeals|
  {
    && db.appeals[a].streamType.Some? && db.appeals[a].streamType.value != "court_remand"
    && (exists p :: 0 <= p < |db.people| && YoungerClaimant(db, a, p))
    && forall p :: 0 <= p < |db.people| && YoungerClaimant(db, a, p) ==> !Advanced(db, a, p)
  }

  /** A claimant, person and motion of the appeal that pass the filter. */
  predicate KeptPair(db: Database, a: nat, c: nat, p: nat, m: Option<nat>, priority: bool)
    requires a < |db.appeals|
  {
    (c, p) in ClaimantsOf(db, a) && m in MotionsOf(db, p) && Keeps(db, a, p, m, priority)
  }

  lemma {:induction false} KeptRowIff(db: Database, a: nat, row: Row, priority: bool)
    requires a < |db.appeals|
    ensures row in KeptRows(db, a, priority) <==>
      row.task in TasksOf(db, a) && KeptPair(db, a, row.claimant, row.person, row.motion, priority)
  {
    if row.task in TasksOf(db, a) && KeptPair(db, a, row.claimant, row.person, row.motion, priority) {
      var cp := (row.claimant, row.person);
      assert row == Row(row.task, cp.0, cp.1, row.motion);
    }
  }

  predicate KeepsSome(db: Database, a: nat, priority: bool)
    requires a < |db.appeals|
  {
    exists row :: row in KeptRows(db, a, priority)
  }

  lemma {:induction false} NonEmpty<T>(s: set<T>)
    ensures |s| >= 1 <==> exists x :: x in s
  {
    if x :| x in s {
      assert s == (s - {x}) + {x};
    }
  }

  function RowsPassing(db: Database, rows: set<Row>, test: TaskTest): set<Row> {
    set row | row in rows && row.task < |db.tasks| && Passes(db.tasks[row.task], test)
  }

  lemma {:induction false} RowOfTask(db: Database, a: nat, priority: bool, test: TaskTest, row: Row)
    requires a < |db.appeals| && row in KeptRows(db, a, priority) && HasTask(db, a, test)
    ensures exists other :: other in RowsPassing(db, KeptRows(db, a, priority), test)
  {
    var t: nat :| t < |db.tasks| && db.tasks[t].appeal == a && Passes(db.tasks[t], test);
    KeptRowIff(db, a, row, priority);
    KeptRowIff(db, a, row.(task := t), priority);
    assert row.(task := t) in RowsPassing(db, KeptRows(db, a, priority), test);
  }

  lemma {:induction false} TaskOfRow(db: Database, a: nat, priority: bool, test: TaskTest, row: Row)
    requires a < |db.appeals| && row in RowsPassing(db, KeptRows(db, a, priority), test)
    ensures HasTask(db, a, test)
  {
    KeptRowIff(db, a, row, priority);
  }

  /** However many rows the joins multiply in, a count over tasks is positive exactly when the appeal has
      such a task and some row passes the filter. */
  lemma {:induction false} CountTasksMeaning(db: Database, a: nat, priority: bool, test: TaskTest)
    requires a < |db.appeals|
    ensures CountTasks(db, KeptRows(db, a, priority), test) >= 1 <==> KeepsSome(db, a, priority) && HasTask(db, a, test)
  {
    var rows := KeptRows(db, a, priority);
    NonEmpty(RowsPassing(db, rows, test));
    if row :| row in RowsPassing(db, rows, test) {
      TaskOfRow(db, a, priority, test, row);
    }
    if KeepsSome(db, a, priority) && HasTask(db, a, test) {
      var row :| row in rows;
      RowOfTask(db, a, priority, test, row);
    }
  }

  lemma {:induction false} CountPlainMeaning(db: Database, a: nat, test: TaskTest)
    ensures CountPlain(db, a, test) >= 1 <==> HasTask(db, a, test)
  {
    var counted := set t | t in TasksOf(db, a) && Passes(db.tasks[t], test);
    NonEmpty(counted);
    if HasTask(db, a, test) {
      var t :| 0 <= t < |db.tasks| && db.tasks[t].appeal == a && Passes(db.tasks[t], test);
      assert t in counted;
    }
  }

  /** A person claims the appeal exactly when the join finds one of its claimants for the person. */
  lemma {:induction false} ClaimsIff(db: Database, a: nat, p: nat)
    requires p < |db.people|
    ensures Claims(db, a, p) <==> exists c :: (c, p) in ClaimantsOf(db, a)
  {
    if Claims(db, a, p) {
      var c :| 0 <= c < |db.claimants| && db.claimants[c].appeal == a && db.claimants[c].participant == db.people[p].participant;
      assert (c, p) in ClaimantsOf(db, a);
    }
  }

  /** A person whose motions the filter may look at puts a row into the group, if there is a task. */
  lemma {:induction false} PersonGivesRow(db: Database, a: nat, p: nat, m: Option<nat>, priority: bool)
        returns (row: Row)
    requires a < |db.appeals| && p < |db.people| && Claims(db, a, p) && TasksOf(db, a) != {}
    requires m in MotionsOf(db, p) && Keeps(db, a, p, m, priority)
    ensures row in KeptRows(db, a, priority) && row.person == p && row.motion == m
  {
    ClaimsIff(db, a, p);
    var c :| (c, p) in ClaimantsOf(db, a);
    var t :| t in TasksOf(db, a);
    row := Row(t, c, p, m);
    KeptRowIff(db, a, row, priority);
  }

  lemma {:induction false} RowGivesPerson(db: Database, a: nat, row: Row, priority: bool)
    requires a < |db.appeals| && row in KeptRows(db, a, priority)
    ensures row.person < |db.people| && Claims(db, a, row.person) && TasksOf(db, a) != {}
    ensures Keeps(db, a, row.person, row.motion, priority)
    ensures GrantedSince(db, a, row.motion) ==> Advanced(db, a, row.person)
  {
    KeptRowIff(db, a, row, priority);
    ClaimsIff(db, a, row.person);
    if GrantedSince(db, a, row.motion) {
      AdvancedIff(db, a, row.person);
      assert db.motions[row.motion.value].person == row.person && GrantedSince(db, a, Some(row.motion.value));
    }
  }

  lemma {:induction false} KeepsSomePriority(db: Database, a: nat)
    requires a < |db.appeals|
    ensures KeepsSome(db, a, true) <==> TasksOf(db, a) != {} && Priority(db, a)
  {
    if KeepsSome(db, a, true) {
      var row :| row in KeptRows(db, a, true);
      RowGivesPerson(db, a, row, true);
    }
    if TasksOf(db, a) != {} && Priority(db, a) {
      var p :| 0 <= p < |db.people| && Claims(db, a, p)
        && (Advanced(db, a, p) || BornBy(db, p) || IsCourtRemand(db.appeals[a]));
      var m :| m in MotionsOf(db, p);
      if Advanced(db, a, p) {
        AdvancedIff(db, a, p);
        var i: nat :| i < |db.motions| && db.motions[i].person == p && GrantedSince(db, a, Some(i));
        m := Some(i);
      }
      var row := PersonGivesRow(db, a, p, m, true);
    }
  }

  lemma {:induction false} KeepsSomeNonpriority(db: Database, a: nat)
    requires a < |db.appeals|
    ensures KeepsSome(db, a, false) <==>
      && TasksOf(db, a) != {} && IsNotCourtRemand(db.appeals[a])
      && exists p :: 0 <= p < |db.people| && YoungerClaimant(db, a, p)
  {
    if KeepsSome(db, a, false) {
      var row :| row in KeptRows(db, a, false);
      RowGivesPerson(db, a, row, false);
      assert YoungerClaimant(db, a, row.person);
    }
    if && TasksOf(db, a) != {} && IsNotCourtRemand(db.appeals[a])
       && exists p :: 0 <= p < |db.people| && YoungerClaimant(db, a, p) {
      var p :| 0 <= p < |db.people| && YoungerClaimant(db, a, p);
      var m :| m in MotionsOf(db, p);
      var row := PersonGivesRow(db, a, p, m, false);
    }
  }

  /** No kept row shows a granted motion exactly when no younger claimant has one. */
  lemma {:induction false} CountGrantedMeaning(db: Database, a: nat)
    requires a < |db.appeals| && IsNotCourtRemand(db.appeals[a]) && TasksOf(db, a) != {}
    ensures CountGranted(db, a, KeptRows(db, a, false)) == 0
       <==> forall p :: 0 <= p < |db.people| && YoungerClaimant(db, a, p) ==> !Advanced(db, a, p)
  {
    var rows := KeptRows(db, a, false);
    var counted := set row | row in rows && GrantedSince(db, a, row.motion);
    NonEmpty(counted);
    if row :| row in counted {
      RowGivesPerson(db, a, row, false);
    }
    if p :| 0 <= p < |db.people| && YoungerClaimant(db, a, p) && Advanced(db, a, p) {
      AdvancedIff(db, a, p);
      var i: nat :| i < |db.motions| && db.motions[i].person == p && GrantedSince(db, a, Some(i));
      var row := PersonGivesRow(db, a, p, Some(i), false);
      assert row in counted;
    }
  }

  lemma {:induction false} TaskedHasTasks(db: Database, a: nat, test: TaskTest)
    requires HasTask(db, a, test)
    ensures TasksOf(db, a) != {}
  {
    var t :| 0 <= t < |db.tasks| && db.tasks[t].appeal == a && Passes(db.tasks[t], test);
    assert t in TasksOf(db, a);
  }

  /** What the grouped query asks of one appeal. */
  predicate Meaning(db: Database, a: nat, priority: Option<bool>, ready: bool)
    requires a < |db.appeals|
  {
    && Active(db, a) && (ready ==> AwaitsDistribution(db, a))
    && match priority
       case None => true
       case Some(true) => Priority(db, a)
       case Some(false) => Nonpriority(db, a)
  }

  lemma {:induction false} GroupMeaning(db: Database, a: nat, priority: bool, ready: bool)
    requires a < |db.appeals|
    ensures GroupPasses(db, a, KeptRows(db, a, priority), priority, ready) <==> Meaning(db, a, Some(priority), ready)
  {
    TaskTestsMean(db, a);
    CountTasksMeaning(db, a, priority, OpenRootTask);
    CountTasksMeaning(db, a, priority, AssignedDistributionTask);
    KeepsSomePriority(db, a);
    KeepsSomeNonpriority(db, a);
    if HasTask(db, a, OpenRootTask) {
      TaskedHasTasks(db, a, OpenRootTask);
      if !priority && IsNotCourtRemand(db.appeals[a]) {
        CountGrantedMeaning(db, a);
      }
    }
  }

  /** The query selects exactly the appeals of the docket that meet the per-appeal condition. */
  lemma {:induction false} QueryMeaning(db: Database, docketType: string, priority: Option<bool>, ready: Option<bool>,
                                        a: nat)
    ensures var selected := Appeals(db, docketType, priority, ready);
            && (selected == NotAllowed <==> ready == Some(false))
            && (ready != Some(false) ==>
                  (a in selected.ids <==>
                     && a < |db.appeals| && db.appeals[a].docketType == docketType
                     && Meaning(db, a, priority, ready == Some(true))))
  {
    if a < |db.appeals| && priority.None? {
      TaskTestsMean(db, a);
      CountPlainMeaning(db, a, OpenRootTask);
      CountPlainMeaning(db, a, AssignedDistributionTask);
    } else if a < |db.appeals| {
      GroupMeaning(db, a, priority.value, ready == Some(true));
    }
  }

  // ---- Priority and nonpriority together ---------------------------------------------------------------

  /** The dates of birth of all claimants and the stream type are known, and there is a claimant. */
  predicate Known(db: Database, a: nat)
    requires a < |db.appeals|
  {
    && db.appeals[a].streamType.Some?
    && (exists p :: 0 <= p < |db.people| && Claims(db, a, p))
    && forall p :: 0 <= p < |db.people| && Claims(db, a, p) ==> db.people[p].dateOfBirth.Some?
  }

  /** The claimants do not agree: one is old enough, another younger, and no younger one has a granted
      motion. */
  predicate Mixed(db: Database, a: nat)
    requires a < |db.appeals|
  {
    && db.appeals[a].streamType != Some("court_remand")
    && (exists p :: 0 <= p < |db.people| && Claims(db, a, p) && !YoungerClaimant(db, a, p))
    && (exists p :: 0 <= p < |db.people| && YoungerClaimant(db, a, p))
    && forall p :: 0 <= p < |db.people| && YoungerClaimant(db, a, p) ==> !Advanced(db, a, p)
  }

  /** With everything known, an appeal is always priority or nonpriority; it is both exactly when its
      claimants disagree. */
  lemma {:induction false} ExactlyOneUnlessMixed(db: Database, a: nat)
    requires a < |db.appeals| && Known(db, a)
    ensures Priority(db, a) || Nonpriority(db, a)
    ensures Priority(db, a) && Nonpriority(db, a) <==> Mixed(db, a)
  {
    var p :| 0 <= p < |db.people| && Claims(db, a, p);
    assert YoungerClaimant(db, a, p) || db.people[p].dateOfBirth.value <= db.bornBy;
    if !Priority(db, a) {
      assert forall q :: 0 <= q < |db.people| && Claims(db, a, q) ==> !Advanced(db, a, q) && YoungerClaimant(db, a, q);
    }
  }

  /** An old and a young claimant without motions put an appeal into the priority and the nonpriority answer. */
  lemma {:induction false} TwoClaimantsMayDisagree() returns (db: Database)
    ensures |db.appeals| == 1 && Known(db, 0) && Mixed(db, 0)
    ensures var prior, other := Appeals(db, "direct_review", Some(true), None), Appeals(db, "direct_review", Some(false), None);
            prior.Ids? && other.Ids? && 0 in prior.ids && 0 in other.ids
  {
    db := Database([AppealRow("direct_review", Some("original"), Some(0))], [TaskRow(0, ROOT_TASK, ASSIGNED)],
                   [ClaimantRow(0, "old"), ClaimantRow(0, "young")],
                   [PersonRow("old", Some(1)), PersonRow("young", Some(9))], [], 5);
    assert db.claimants[0].participant == db.people[0].participant && Claims(db, 0, 0) && !YoungerClaimant(db, 0, 0);
    assert db.claimants[1].participant == db.people[1].participant && YoungerClaimant(db, 0, 1);
    assert db.tasks[0].appeal == 0 && Active(db, 0);
    ExactlyOneUnlessMixed(db, 0);
    QueryMeaning(db, "direct_review", Some(true), None, 0);
    QueryMeaning(db, "direct_review", Some(false), None, 0);
  }

  /** One claimant, with a person on record. */
  predicate SingleClaimant(db: Database, a: nat) {
    forall p, q :: 0 <= p < |db.people| && 0 <= q < |db.people| && Claims(db, a, p) && Claims(db, a, q) ==> p == q
  }

  /** When every active appeal of the docket has one claimant and known data, the two queries split the
      active appeals, ready or not, and their counts add up. */
  lemma {:induction false} QueriesPartitionDocket(db: Database, docketType: string, ready: Option<bool>)
    requires ready != Some(false)
    requires forall a :: 0 <= a < |db.appeals| && db.appeals[a].docketType == docketType ==> Known(db, a) && SingleClaimant(db, a)
    ensures var all := Appeals(db, docketType, None, ready).ids;
            var prior := Appeals(db, docketType, Some(true), ready).ids;
            var nonprior := Appeals(db, docketType, Some(false), ready).ids;
            all == prior + nonprior && prior !! nonprior && |all| == |prior| + |nonprior|
  {
    var all := Appeals(db, docketType, None, ready).ids;
    var prior := Appeals(db, docketType, Some(true), ready).ids;
    var nonprior := Appeals(db, docketType, Some(false), ready).ids;
    forall a: nat
      ensures a in all <==> a in prior || a in nonprior
      ensures !(a in prior && a in nonprior)
    {
      if a < |db.appeals| {
        QueryMeaning(db, docketType, None, ready, a);
        QueryMeaning(db, docketType, Some(true), ready, a);
        QueryMeaning(db, docketType, Some(false), ready, a);
        if db.appeals[a].docketType == docketType {
          ExactlyOneUnlessMixed(db, a);
        }
      }
    }
    assert all == prior + nonprior;
  }

  /** Recording a task a second time changes no answer. */
  lemma {:induction false} DuplicateTaskChangesNothing(db: Database, t: nat, docketType: string,
                                                       priority: Option<bool>, ready: Option<bool>)
    requires t < |db.tasks|
    ensures Appeals(db.(tasks := db.tasks + [db.tasks[t]]), docketType, priority, ready)
         == Appeals(db, docketType, priority, ready)
  {
    var more := db.(tasks := db.tasks + [db.tasks[t]]);
    if ready != Some(false) {
      forall a: nat
        ensures a in Appeals(more, docketType, priority, ready).ids <==> a in Appeals(db, docketType, priority, ready).ids
      {
        if a < |db.appeals| {
          QueryMeaning(db, docketType, priority, ready, a);
          QueryMeaning(more, docketType, priority, ready, a);
          TaskTestsMean(db, a);
          TaskTestsMean(more, a);
          SameTasks(db, more, t, a, OpenRootTask);
          SameTasks(db, more, t, a, AssignedDistributionTask);
          SamePeople(db, more, a);
        }
      }
    }
  }

  /** Nor does recording a motion a second time. */
  lemma {:induction false} DuplicateMotionChangesNothing(db: Database, m: nat, docketType: string,
        priority: Option<bool>, ready: Option<bool>)
    requires m < |db.motions|
    ensures Appeals(db.(motions := db.motions + [db.motions[m]]), docketType, priority, ready)
         == Appeals(db, docketType, priority, ready)
  {
    var more := db.(motions := db.motions + [db.motions[m]]);
    if ready != Some(false) {
      forall a: nat
        ensures a in Appeals(more, docketType, priority, ready).ids <==> a in Appeals(db, docketType, priority, ready).ids
      {
        if a < |db.appeals| {
          QueryMeaning(db, docketType, priority, ready, a);
          QueryMeaning(more, docketType, priority, ready, a);
          SameAdvanced(db, more, m, a);
        }
      }
    }
  }

  lemma {:induction false} SameAdvanced(db: Database, more: Database, m: nat, a: nat)
    requires a < |db.appeals| && m < |db.motions| && more == db.(motions := db.motions + [db.motions[m]])
    ensures Priority(db, a) <==> Priority(more, a)
    ensures Nonpriority(db, a) <==> Nonpriority(more, a)
    ensures Active(db, a) <==> Active(more, a)
    ensures AwaitsDistribution(db, a) <==> AwaitsDistribution(more, a)
  {
    forall p | 0 <= p < |db.people|
      ensures Claims(db, a, p) <==> Claims(more, a, p)
      ensures Advanced(db, a, p) <==> Advanced(more, a, p)
      ensures YoungerClaimant(db, a, p) <==> YoungerClaimant(more, a, p)
    {
      AdvancedIff(db, a, p);
      AdvancedIff(more, a, p);
      if i: nat :| i < |db.motions| && db.motions[i].person == p && GrantedSince(db, a, Some(i)) {
        assert more.motions[i] == db.motions[i] && GrantedSince(more, a, Some(i));
      }
      if i: nat :| i < |more.motions| && more.motions[i].person == p && GrantedSince(more, a, Some(i)) {
        var same := if i < |db.motions| then i else m;
        assert more.motions[i] == db.motions[same] && GrantedSince(db, a, Some(same));
      }
    }
    assert more.tasks == db.tasks;
  }

  lemma {:induction false} SameTasks(db: Database, more: Database, t: nat, a: nat, test: TaskTest)
    requires t < |db.tasks| && more == db.(tasks := db.tasks + [db.tasks[t]])
    ensures HasTask(db, a, test) <==> HasTask(more, a, test)
  {
    if i :| 0 <= i < |db.tasks| && db.tasks[i].appeal == a && Passes(db.tasks[i], test) {
      assert more.tasks[i] == db.tasks[i];
    }
    if i :| 0 <= i < |more.tasks| && more.tasks[i].appeal == a && Passes(more.tasks[i], test) {
      assert more.tasks[i] == db.tasks[if i < |db.tasks| then i else t];
    }
  }

  lemma {:induction false} SamePeople(db: Database, more: Database, a: nat)
    requires a < |db.appeals| && more == db.(tasks := more.tasks)
    ensures Priority(db, a) <==> Priority(more, a)
    ensures Nonpriority(db, a) <==> Nonpriority(more, a)
  {
    forall p | 0 <= p < |db.people|
      ensures Claims(db, a, p) <==> Claims(more, a, p)
      ensures Advanced(db, a, p) <==> Advanced(more, a, p)
      ensures YoungerClaimant(db, a, p) <==> YoungerClaimant(more, a, p)
    {
      assert more.motions == db.motions && more.appeals == db.appeals;
    }
  }
}
