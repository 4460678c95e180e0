/** The life of distribution requests: creation, start, completion or failure, retry from an error and
    the restart of pending and stalled ones. Jobs interleave: each saved change is one step, a finishing job
    writes without looking at the row, and a starting or requeueing one looks at the copy it loaded. */
module Distributions {
  import opened Prelude

  datatype Status = Pending | Started | Error | Completed

  /** `cases` are the distributed cases that belong to the distribution. `jobs` is no column: it counts the jobs
      that started it and are still at work. */
  datatype Distribution = Distribution(
    judge: nat, priorityPush: bool, status: Status, createdAt: nat, startedAt: Option<nat>,
    completedAt: Option<nat>, erroredAt: Option<nat>, cases: seq<nat>, jobs: nat)

  /** What the create-time validations see apart from the table itself. */
  datatype Checks = Checks(isJudge: bool, fewUnassigned: bool, noneWaitingLong: bool)

  predicate Active(d: Distribution) { d.status.Pending? || d.status.Started? }

  /** The judge has a pending or started distribution of this kind. */
  predicate HasActive(rows: seq<Distribution>, judge: nat, priorityPush: bool) {
    exists i :: 0 <= i < |rows| && rows[i].judge == judge && rows[i].priorityPush == priorityPush && Active(rows[i])
  }

  predicate ValidForCreate(rows: seq<Distribution>, judge: nat, priorityPush: bool, checks: Checks) {
    && checks.isJudge
    && (!priorityPush ==> checks.fewUnassigned && checks.noneWaitingLong)
    && !HasActive(rows, judge, priorityPush)
  }

  /** A pushed distribution asks only for a judge without an active push; a requested one asks in addition for few
      unassigned cases, none of them waiting long. */
  lemma {:induction false} ValidForCreateIff(rows: seq<Distribution>, judge: nat, checks: Checks)
    ensures ValidForCreate(rows, judge, true, checks) <==>
      && checks.isJudge
      && forall d :: d in rows && d.judge == judge && d.priorityPush ==> d.status in {Error, Completed}
    ensures ValidForCreate(rows, judge, false, checks) <==>
      && checks.isJudge && checks.fewUnassigned && checks.noneWaitingLong
      && forall d :: d in rows && d.judge == judge && !d.priorityPush ==> d.status in {Error, Completed}
  {
    assert forall i :: 0 <= i < |rows| ==> rows[i] in rows;
  }

  /** `seen` is the copy of the row the job works on. */
  datatype Event =
    | Create(judge: nat, priorityPush: bool, checks: Checks, now: nat)
    | Start(i: nat, seen: Distribution, checks: Checks, now: nat)
    | Succeed(i: nat, cases: seq<nat>, now: nat)
    | Fail(i: nat, now: nat)
    | Die(i: nat)
    | Requeue(i: nat, seen: Distribution, now: nat)

  const STALLED_AFTER := 15

  /** Started at least 15 minutes ago, or without a time. */
  predicate Stalled(d: Distribution, now: nat) {
    d.status.Started? && (d.startedAt.None? || d.startedAt.value + STALLED_AFTER < now)
  }

  const PENDING_TOO_LONG := 55

  predicate PendingTooLong(d: Distribution, now: nat) {
    d.status.Pending? && d.createdAt + PENDING_TOO_LONG < now
  }

  /** A distribution is stalled from the 16th minute after its start, or at once without a time, and pending too long
      from the 56th minute after its creation. */
  lemma {:induction false} TooLongIff(d: Distribution, now: nat)
    ensures Stalled(d, now) <==> d.status == Started && (d.startedAt.Some? ==> now >= d.startedAt.value + 16)
    ensures PendingTooLong(d, now) <==> d.status == Pending && now >= d.createdAt + 56
  {
  }

  /** `distribute!` goes ahead: from pending, or from an error whose create-time checks pass again. The
      checks are repeated only if `rechecks`, that is, if `valid?(context: :create)` reaches them. */
  predicate Starts(rows: seq<Distribution>, seen: Distribution, checks: Checks, rechecks: bool) {
    || seen.status.Pending?
    || (seen.status.Error? && (rechecks ==> ValidForCreate(rows, seen.judge, seen.priorityPush, checks)))
  }

  /** A job is still at work on the row. */
  predicate Busy(rows: seq<Distribution>, i: nat) { i < |rows| && rows[i].jobs > 0 }

  function Step(rows: seq<Distribution>, ev: Event, rechecks: bool): seq<Distribution> {
    match ev
    case Create(judge, push, checks, now) =>
      if ValidForCreate(rows, judge, push, checks) then
        rows + [Distribution(judge, push, Pending, now, None, None, None, [], 0)]
      else rows
    case Start(i, seen, checks, now) =>
      if i < |rows| && Starts(rows, seen, checks, rechecks) then
        rows[i := rows[i].(status := Started, startedAt := Some(now), jobs := rows[i].jobs + 1)]
      else rows
    case Succeed(i, cases, now) =>
      if Busy(rows, i) then
        rows[i := rows[i].(status := Completed, completedAt := Some(now), cases := rows[i].cases + cases, jobs := rows[i].jobs - 1)]
      else rows
    case Fail(i, now) =>
      if Busy(rows, i) then rows[i := rows[i].(status := Error, erroredAt := Some(now), jobs := rows[i].jobs - 1)] else rows
    case Die(i) =>
      if Busy(rows, i) then rows[i := rows[i].(jobs := rows[i].jobs - 1)] else rows
    case Requeue(i, seen, now) =>
      if i < |rows| && Stalled(seen, now) then rows[i := rows[i].(status := Pending)] else rows
  }

  // ---- What every step keeps -----------------------------------------------------------------------

  predicate SameKind(d: Distribution, e: Distribution) { d.judge == e.judge && d.priorityPush == e.priorityPush }

  /** Each judge has at most one pending or started distribution of each kind. */
  predicate OneActive(rows: seq<Distribution>) {
    forall i, j :: 0 <= i < j < |rows| && SameKind(rows[i], rows[j]) ==> !(Active(rows[i]) && Active(rows[j]))
  }

  /** Only a completed distribution owns cases, and it alone has a time of completion. */
  predicate CasesWhenCompleted(rows: seq<Distribution>) {
    forall i :: 0 <= i < |rows| ==>
      && (!rows[i].status.Completed? ==> rows[i].cases == [])
      && (rows[i].status.Completed? <==> rows[i].completedAt.Some?)
  }

  /** Rows stay in place, and a completed one never changes again; the jobs are no part of it. */
  predicate CompletedIsFinal(before: seq<Distribution>, after: seq<Distribution>) {
    && |before| <= |after|
    && forall i :: 0 <= i < |before| ==>
         && SameKind(before[i], after[i])
         && (before[i].status.Completed? ==> after[i] == before[i].(jobs := after[i].jobs))
  }

  predicate StaysCompleted(before: seq<Distribution>, after: seq<Distribution>) {
    && |before| <= |after|
    && forall i :: 0 <= i < |before| && before[i].status.Completed? ==> after[i].status.Completed?
  }

  /** The copies the jobs work on are up to date. */
  predicate Fresh(rows: seq<Distribution>, ev: Event) {
    (ev.Start? || ev.Requeue?) && ev.i < |rows| ==> ev.seen == rows[ev.i].(jobs := ev.seen.jobs)
  }

  /** The event makes a row active that was not. */
  predicate Activates(rows: seq<Distribution>, ev: Event, rechecks: bool) {
    && (ev.Start? || ev.Requeue?) && ev.i < |rows| && !Active(rows[ev.i])
    && (ev.Start? ==> Starts(rows, ev.seen, ev.checks, rechecks)) && (ev.Requeue? ==> Stalled(ev.seen, ev.now))
  }

  /** A distribution becomes active while the judge already has an active one of its kind. */
  predicate ActivatesBesideActive(rows: seq<Distribution>, ev: Event, rechecks: bool) {
    Activates(rows, ev, rechecks) && HasActive(rows, rows[ev.i].judge, rows[ev.i].priorityPush)
  }

  /** A step keeps at most one active distribution exactly when it does no such thing. */
  lemma {:induction false} OneActiveIff(rows: seq<Distribution>, ev: Event, rechecks: bool)
    requires OneActive(rows)
    ensures OneActive(Step(rows, ev, rechecks)) <==> !ActivatesBesideActive(rows, ev, rechecks)
  {
    var after := Step(rows, ev, rechecks);
    if ActivatesBesideActive(rows, ev, rechecks) {
      var d := rows[ev.i];
      var j :| 0 <= j < |rows| && rows[j].judge == d.judge && rows[j].priorityPush == d.priorityPush && Active(rows[j]);
      assert SameKind(after[ev.i], after[j]) && Active(after[ev.i]) && Active(after[j]);
    }
  }

  /** With copies up to date only a retry from an error can do it, and only if the checks are not repeated. */
  lemma {:induction false} FreshActivationIff(rows: seq<Distribution>, ev: Event, rechecks: bool)
    requires Fresh(rows, ev)
    ensures Activates(rows, ev, rechecks) <==>
      ev.Start? && ev.i < |rows| && rows[ev.i].status.Error? && Starts(rows, rows[ev.i], ev.checks, rechecks)
    ensures rechecks ==> !ActivatesBesideActive(rows, ev, rechecks)
  {
  }

  /** A job that failed late, or one that works on an outdated copy, takes a completed distribution back. */
  predicate Reverts(rows: seq<Distribution>, ev: Event, rechecks: bool) {
    && !ev.Create? && ev.i < |rows| && rows[ev.i].status.Completed?
    && match ev
       case Fail(i, _) => Busy(rows, i)
       case Start(_, seen, checks, _) => Starts(rows, seen, checks, rechecks)
       case Requeue(_, seen, now) => Stalled(seen, now)
       case _ => false
  }

  /** A job that succeeded late adds to a completed distribution. */
  predicate Rewrites(rows: seq<Distribution>, ev: Event) {
    && ev.Succeed? && Busy(rows, ev.i) && rows[ev.i].status.Completed?
    && (ev.cases != [] || rows[ev.i].completedAt != Some(ev.now))
  }

  /** What a step does to completed distributions: each holds if and only if the event is none of the late ones. */
  lemma {:induction false} StepKeepsIff(rows: seq<Distribution>, ev: Event, rechecks: bool)
    requires CasesWhenCompleted(rows)
    ensures var after := Step(rows, ev, rechecks);
            && (StaysCompleted(rows, after) <==> !Reverts(rows, ev, rechecks))
            && (CasesWhenCompleted(after) <==> !Reverts(rows, ev, rechecks))
            && (CompletedIsFinal(rows, after) <==> !Reverts(rows, ev, rechecks) && !Rewrites(rows, ev))
  {
    var after := Step(rows, ev, rechecks);
    if Reverts(rows, ev, rechecks) {
      assert !after[ev.i].status.Completed? && after[ev.i].completedAt == rows[ev.i].completedAt;
    } else if Rewrites(rows, ev) {
      assert |after[ev.i].cases| == |rows[ev.i].cases| + |ev.cases|;
      assert after[ev.i] != rows[ev.i].(jobs := after[ev.i].jobs);
    } else if ev.Succeed? && Busy(rows, ev.i) {
      assert rows[ev.i].cases + [] == rows[ev.i].cases;
    }
  }

  /** With copies up to date a completed distribution is taken back only by a job that fails late. */
  lemma {:induction false} FreshRevertsIff(rows: seq<Distribution>, ev: Event, rechecks: bool)
    requires Fresh(rows, ev)
    ensures Reverts(rows, ev, rechecks) <==> ev.Fail? && Busy(rows, ev.i) && rows[ev.i].status.Completed?
  {
  }

  // ---- Runs ------------------------------------------------------------------------------------------

  function Run(rows: seq<Distribution>, events: seq<Event>, rechecks: bool): seq<Distribution> {
    After((s, ev) => Step(s, ev, rechecks), rows, events)
  }

  predicate AllFresh(rows: seq<Distribution>, events: seq<Event>, rechecks: bool) {
    forall n :: 0 <= n < |events| ==> Fresh(Run(rows, events[..n], rechecks), events[n])
  }

  /** No event of the run takes a completed distribution back. */
  predicate NeverReverts(rows: seq<Distribution>, events: seq<Event>, rechecks: bool) {
    forall n :: 0 <= n < |events| ==> !Reverts(Run(rows, events[..n], rechecks), events[n], rechecks)
  }

  lemma {:induction false} Prefixes(events: seq<Event>, n: nat)
    requires n < |events|
    ensures forall m :: 0 <= m <= n ==> events[..n][..m] == events[..m]
    ensures forall m :: 0 <= m < n ==> events[..n][m] == events[m]
  {
  }

  lemma {:induction false} RunOneMore(rows: seq<Distribution>, events: seq<Event>, rechecks: bool, n: nat)
    requires n < |events|
    ensures Run(rows, events[..n + 1], rechecks) == Step(Run(rows, events[..n], rechecks), events[n], rechecks)
  {
    assert events[..n + 1][..n] == events[..n];
  }

  /** With the checks repeated before a retry, every interleaving in which jobs work on up-to-date copies leaves
      each judge at most one active distribution of each kind, whatever finishes late. */
  lemma {:induction false} OneActiveAlways(events: seq<Event>)
    requires AllFresh([], events, true)
    ensures OneActive(Run([], events, true))
  {
    if events != [] {
      var n := |events| - 1;
      Prefixes(events, n);
      OneActiveAlways(events[..n]);
      FreshActivationIff(Run([], events[..n], true), events[n], true);
      OneActiveIff(Run([], events[..n], true), events[n], true);
      RunOneMore([], events, true, n);
      assert events[..n + 1] == events;
    }
  }

  predicate CasesAllAlong(rows: seq<Distribution>, events: seq<Event>, rechecks: bool) {
    forall n :: 0 <= n <= |events| ==> CasesWhenCompleted(Run(rows, events[..n], rechecks))
  }

  lemma {:induction false} AllAlongPrefix(rows: seq<Distribution>, events: seq<Event>, rechecks: bool)
    requires events != []
    ensures var n := |events| - 1;
            CasesAllAlong(rows, events, rechecks) <==>
              CasesAllAlong(rows, events[..n], rechecks) && CasesWhenCompleted(Run(rows, events, rechecks))
  {
    var n := |events| - 1;
    Prefixes(events, n);
    assert events[..n + 1] == events;
  }

  lemma {:induction false} NeverRevertsPrefix(rows: seq<Distribution>, events: seq<Event>, rechecks: bool)
    requires events != []
    ensures var n := |events| - 1;
            NeverReverts(rows, events, rechecks) <==>
              NeverReverts(rows, events[..n], rechecks) && !Reverts(Run(rows, events[..n], rechecks), events[n], rechecks)
  {
    Prefixes(events, |events| - 1);
  }

  /** Over every run, whatever the jobs see and whenever they finish: only completed distributions own cases all
      along if and only if no event takes a completed one back. */
  lemma {:induction false} CasesAlwaysIff(rows: seq<Distribution>, events: seq<Event>, rechecks: bool)
    requires CasesWhenCompleted(rows)
    ensures CasesAllAlong(rows, events, rechecks) <==> NeverReverts(rows, events, rechecks)
    decreases |events|
  {
    if events == [] {
      assert Run(rows, events[..0], rechecks) == rows;
    } else {
      var n := |events| - 1;
      var before := Run(rows, events[..n], rechecks);
      CasesAlwaysIff(rows, events[..n], rechecks);
      AllAlongPrefix(rows, events, rechecks);
      NeverRevertsPrefix(rows, events, rechecks);
      assert Run(rows, events, rechecks) == Step(before, events[n], rechecks);
      assert CasesAllAlong(rows, events[..n], rechecks) ==> CasesWhenCompleted(before) by {
        assert events[..n][..n] == events[..n];
      }
      if CasesWhenCompleted(before) {
        StepKeepsIff(before, events[n], rechecks);
      }
    }
  }

  /** One job at a time: a job is at work only on a started distribution. */
  predicate OneJob(rows: seq<Distribution>) {
    forall i :: 0 <= i < |rows| ==> rows[i].jobs <= 1 && (rows[i].jobs > 0 ==> rows[i].status.Started?)
  }

  /** The margin of 15 minutes is wide enough: what is requeued has no job any more. */
  predicate InMargin(rows: seq<Distribution>, ev: Event) {
    Fresh(rows, ev) && (ev.Requeue? && Stalled(ev.seen, ev.now) ==> !Busy(rows, ev.i))
  }

  lemma {:induction false} MarginKeepsOneJob(rows: seq<Distribution>, ev: Event, rechecks: bool)
    requires OneJob(rows) && InMargin(rows, ev)
    ensures OneJob(Step(rows, ev, rechecks)) && !Reverts(rows, ev, rechecks) && !Rewrites(rows, ev)
  {
  }

  lemma {:induction false} FinalTwice(a: seq<Distribution>, b: seq<Distribution>, c: seq<Distribution>)
    requires CompletedIsFinal(a, b) && CompletedIsFinal(b, c)
    ensures CompletedIsFinal(a, c)
  {
  }

  /** While nothing is requeued under a job still at work, nothing ever happens to a completed distribution
      again, whether or not checks are repeated, and it alone owns cases. */
  lemma {:induction false} CompletedForGood(rows: seq<Distribution>, events: seq<Event>, rechecks: bool)
    requires CasesWhenCompleted(rows) && OneJob(rows)
    requires forall n :: 0 <= n < |events| ==> InMargin(Run(rows, events[..n], rechecks), events[n])
    ensures var end := Run(rows, events, rechecks);
            CompletedIsFinal(rows, end) && CasesWhenCompleted(end) && OneJob(end)
    decreases |events|
  {
    if events != [] {
      var n := |events| - 1;
      Prefixes(events, n);
      CompletedForGood(rows, events[..n], rechecks);
      var before := Run(rows, events[..n], rechecks);
      MarginKeepsOneJob(before, events[n], rechecks);
      StepKeepsIff(before, events[n], rechecks);
      RunOneMore(rows, events, rechecks, n);
      assert events[..n + 1] == events;
      FinalTwice(rows, before, Run(rows, events, rechecks));
    }
  }

  /** A distribution still at work after 15 minutes is requeued and completed by a second job, and then the
      first one fails: it ends in error and owns a case. */
  lemma {:induction false} LateFailureUndoesCompletion() returns (events: seq<Event>)
    ensures AllFresh([], events, true)
    ensures var rows := Run([], events, true);
            |rows| == 1 && rows[0].status == Error && rows[0].completedAt.Some? && rows[0].cases == [5]
  {
    var ok := Checks(true, true, true);
    var pending := Distribution(7, false, Pending, 0, None, None, None, [], 0);
    var started := pending.(status := Started, startedAt := Some(1), jobs := 1);
    var requeued := started.(status := Pending);
    var again := requeued.(status := Started, startedAt := Some(20), jobs := 2);
    var done := again.(status := Completed, completedAt := Some(21), cases := [] + [5], jobs := 1);
    var failed := done.(status := Error, erroredAt := Some(22), jobs := 0);
    events := [Create(7, false, ok, 0), Start(0, pending, ok, 1), Requeue(0, started, 20),
               Start(0, requeued, ok, 20), Succeed(0, [5], 21), Fail(0, 22)];
    RunsThrough(events, [[], [pending], [started], [requeued], [again], [done], [failed]], true);
  }

  /** A run through these states, given step by step. */
  lemma {:induction false} RunsThrough(events: seq<Event>, states: seq<seq<Distribution>>, rechecks: bool)
    requires |states| == |events| + 1 && states[0] == []
    requires forall n :: 0 <= n < |events| ==> states[n + 1] == Step(states[n], events[n], rechecks)
    requires forall n :: 0 <= n < |events| ==> Fresh(states[n], events[n])
    ensures AllFresh([], events, rechecks) && Run([], events, rechecks) == states[|events|]
  {
    forall n | 0 <= n <= |events|
      ensures Run([], events[..n], rechecks) == states[n]
    {
      ReachesState(events, states, rechecks, n);
    }
    assert events[..|events|] == events;
  }

  lemma {:induction false} ReachesState(events: seq<Event>, states: seq<seq<Distribution>>, rechecks: bool, n: nat)
    requires |states| == |events| + 1 && n <= |events| && states[0] == []
    requires forall m :: 0 <= m < |events| ==> states[m + 1] == Step(states[m], events[m], rechecks)
    ensures Run([], events[..n], rechecks) == states[n]
  {
    if n > 0 {
      ReachesState(events, states, rechecks, n - 1);
      RunOneMore([], events, rechecks, n - 1);
    }
  }

  /** Without the repeated checks a judge can end with two started distributions of a kind: one fails, a
      second is requested and started, and the first is retried. */
  lemma {:induction false} UncheckedRetryStartsTwo() returns (events: seq<Event>)
    ensures AllFresh([], events, false)
    ensures var rows := Run([], events, false);
            |rows| == 2 && SameKind(rows[0], rows[1]) && rows[0].status == Started && rows[1].status == Started
  {
    var ok := Checks(true, true, true);
    var pending := Distribution(7, false, Pending, 0, None, None, None, [], 0);
    var started := pending.(status := Started, startedAt := Some(1), jobs := 1);
    var failed := started.(status := Error, erroredAt := Some(2), jobs := 0);
    var second := Distribution(7, false, Pending, 3, None, None, None, [], 0);
    var both := [failed, second.(status := Started, startedAt := Some(4), jobs := 1)];
    var retried := failed.(status := Started, startedAt := Some(5), jobs := 1);
    events := [Create(7, false, ok, 0), Start(0, pending, ok, 1), Fail(0, 2),
               Create(7, false, ok, 3), Start(1, second, ok, 4), Start(0, failed, ok, 5)];
    RunsThrough(events, [[], [pending], [started], [failed], [failed, second], both, [retried, both[1]]], false);
  }

  /** A list of pending distributions loaded before one of them was completed: its outdated copy starts it
      again, beside a new one of the judge, even with the checks repeated. */
  lemma {:induction false} OutdatedCopyStartsTwo() returns (events: seq<Event>)
    ensures var rows := Run([], events, true);
            |rows| == 2 && !OneActive(rows) && rows[0].status == Started && rows[0].cases == [5]
  {
    var ok := Checks(true, true, true);
    var pending := Distribution(7, false, Pending, 0, None, None, None, [], 0);
    var started := pending.(status := Started, startedAt := Some(60), jobs := 1);
    var done := started.(status := Completed, completedAt := Some(61), cases := [] + [5], jobs := 0);
    var other := Distribution(7, false, Pending, 62, None, None, None, [], 0);
    var again := done.(status := Started, startedAt := Some(63), jobs := 1);
    events := [Create(7, false, ok, 0), Start(0, pending, ok, 60), Succeed(0, [5], 61),
               Create(7, false, ok, 62), Start(0, pending, ok, 63)];
    ReachesState(events, [[], [pending], [started], [done], [done, other], [again, other]], true, 5);
    assert events[..5] == events;
    var rows := [again, other];
    assert SameKind(rows[0], rows[1]) && Active(rows[0]) && Active(rows[1]);
  }

  // ---- Jobs on the table -----------------------------------------------------------------------------

  datatype JobOutcome = Skipped | Finished | Raised | Died

  /** What becomes of a started job: it hands out cases, raises, or dies without a trace. */
  datatype Script = Succeeds(cases: seq<nat>) | Raises | Dies

  function DistributeRow(rows: seq<Distribution>, i: nat, checks: Checks, script: Script, now: nat, rechecks: bool): (r: seq<Distribution>)
    requires i < |rows|
    ensures |r| == |rows| && forall j :: 0 <= j < |rows| && j != i ==> r[j] == rows[j]
    ensures !r[i].status.Pending?
  {
    if !Starts(rows, rows[i], checks, rechecks) then rows
    else
      var started := Step(rows, Start(i, rows[i], checks, now), rechecks);
      match script
      case Succeeds(cases) => Step(started, Succeed(i, cases, now), rechecks)
      case Raises => Step(started, Fail(i, now), rechecks)
      case Dies => Step(started, Die(i), rechecks)
  }

  class DistributionTable {
    const rechecks: bool
    var rows: seq<Distribution>

    method CreateDistribution(judge: nat, priorityPush: bool, checks: Checks, now: nat) returns (ok: bool)
      modifies this
      ensures rows == Step(old(rows), Create(judge, priorityPush, checks, now), rechecks)
      ensures ok <==> rows != old(rows)
    {
      ok := ValidForCreate(rows, judge, priorityPush, checks);
      if ok {
        rows := rows + [Distribution(judge, priorityPush, Pending, now, None, None, None, [], 0)];
      }
    }

    method Distribute(i: nat, checks: Checks, script: Script, now: nat) returns (outcome: JobOutcome)
      requires i < |rows|
      modifies this
      ensures rows == DistributeRow(old(rows), i, checks, script, now, rechecks)
      ensures outcome == if !Starts(old(rows), old(rows)[i], checks, rechecks) then Skipped
                         else if script.Raises? then Raised else if script.Dies? then Died else Finished
    {
      if !(rows[i].status.Pending? || rows[i].status.Error?) {
        return Skipped;
      }
      if rows[i].status.Error? && rechecks && !ValidForCreate(rows, rows[i].judge, rows[i].priorityPush, checks) {
        return Skipped;
      }
      rows := rows[i := rows[i].(status := Started, startedAt := Some(now), jobs := rows[i].jobs + 1)];
      match script
      case Succeeds(cases) =>
        rows := rows[i := rows[i].(status := Completed, completedAt := Some(now), cases := rows[i].cases + cases,
                                   jobs := rows[i].jobs - 1)];
        return Finished;
      case Raises =>
        rows := rows[i := rows[i].(status := Error, erroredAt := Some(now), jobs := rows[i].jobs - 1)];
        return Raised;
      case Dies =>
        rows := rows[i := rows[i].(jobs := rows[i].jobs - 1)];
        return Died;
    }

    /** Runs the distributions that have been pending too long; a failure is swallowed and the next one
        still runs, only the death of the process ends the loop. */
    method RestartPending(pending: seq<nat>, checks: Checks, scripts: nat -> Script, now: nat) returns (handled: nat)
      requires forall k :: 0 <= k < |pending| ==> pending[k] < |rows| && PendingTooLong(rows[pending[k]], now)
      requires forall k, l :: 0 <= k < l < |pending| ==> pending[k] != pending[l]
      modifies this
      ensures handled <= |pending|
      ensures rows == RanAll(old(rows), pending[..handled], checks, scripts, now, rechecks)
      ensures handled < |pending| ==> handled > 0 && scripts(pending[handled - 1]).Dies?
      ensures forall k :: 0 <= k < handled ==> !rows[pending[k]].status.Pending?
    {
      handled := 0;
      while handled < |pending|
        invariant 0 <= handled <= |pending| && |rows| == |old(rows)|
        invariant rows == RanAll(old(rows), pending[..handled], checks, scripts, now, rechecks)
        invariant forall k :: handled <= k < |pending| ==> rows[pending[k]] == old(rows)[pending[k]]
        invariant forall k :: 0 <= k < handled ==> !rows[pending[k]].status.Pending?
      {
        assert pending[..handled + 1][..handled] == pending[..handled];
        var outcome := Distribute(pending[handled], checks, scripts(pending[handled]), now);
        handled := handled + 1;
        if outcome.Died? {
          return;
        }
      }
    }

    method RestartOne(i: nat, checks: Checks, script: Script, now: nat) returns (outcome: JobOutcome)
      requires i < |rows| && Stalled(rows[i], now)
      modifies this
      ensures rows == RestartRow(old(rows), i, checks, script, now, rechecks)
      ensures outcome == if script.Raises? then Raised else if script.Dies? then Died else Finished
    {
      rows := rows[i := rows[i].(status := Pending)];
      outcome := Distribute(i, checks, script, now);
    }

    /** Requeues and runs the stalled distribution at `n` of the list, after those before it. */
    method RestartNext(stalled: seq<nat>, n: nat, checks: Checks, scripts: nat -> Script, now: nat,
                       ghost start: seq<Distribution>) returns (outcome: JobOutcome)
      requires n < |stalled| && |rows| == |start| && forall k :: 0 <= k < |stalled| ==> stalled[k] < |start|
      requires forall k, l :: 0 <= k < l < |stalled| ==> stalled[k] != stalled[l]
      requires Stalled(rows[stalled[n]], now)
      requires rows == Restarted(start, stalled[..n], checks, scripts, now, rechecks)
      modifies this
      ensures |rows| == |start| && rows == Restarted(start, stalled[..n + 1], checks, scripts, now, rechecks)
      ensures forall k :: n < k < |stalled| ==> rows[stalled[k]] == old(rows)[stalled[k]]
      ensures outcome.Finished? <==> scripts(stalled[n]).Succeeds?
    {
      assert stalled[..n + 1][..n] == stalled[..n];
      outcome := RestartOne(stalled[n], checks, scripts(stalled[n]), now);
      LaterRowsStay(old(rows), rows, stalled, n);
    }

    /** Requeues and runs the stalled distributions one by one; the first failure ends the job. */
    method RestartStalled(stalled: seq<nat>, checks: Checks, scripts: nat -> Script, now: nat) returns (handled: nat)
      requires forall k :: 0 <= k < |stalled| ==> stalled[k] < |rows| && Stalled(rows[stalled[k]], now)
      requires forall k, l :: 0 <= k < l < |stalled| ==> stalled[k] != stalled[l]
      modifies this
      ensures handled <= |stalled|
      ensures rows == Restarted(old(rows), stalled[..handled], checks, scripts, now, rechecks)
      ensures forall k :: 0 <= k < handled - 1 ==> scripts(stalled[k]).Succeeds?
      ensures handled < |stalled| ==> handled > 0 && !scripts(stalled[handled - 1]).Succeeds?
    {
      handled := 0;
      while handled < |stalled|
        invariant 0 <= handled <= |stalled| && |rows| == |old(rows)|
        invariant rows == Restarted(old(rows), stalled[..handled], checks, scripts, now, rechecks)
        invariant forall k :: handled <= k < |stalled| ==> rows[stalled[k]] == old(rows)[stalled[k]]
        invariant forall k :: 0 <= k < handled ==> scripts(stalled[k]).Succeeds?
      {
        var outcome := RestartNext(stalled, handled, checks, scripts, now, old(rows));
        handled := handled + 1;
        if !outcome.Finished? {
          return;
        }
      }
    }
  }

  lemma {:induction false} LaterRowsStay(before: seq<Distribution>, after: seq<Distribution>, list: seq<nat>, n: nat)
    requires |after| == |before| && n < |list| && forall k :: 0 <= k < |list| ==> list[k] < |before|
    requires forall j :: 0 <= j < |before| && j != list[n] ==> after[j] == before[j]
    requires forall k, l :: 0 <= k < l < |list| ==> list[k] != list[l]
    ensures forall k :: n < k < |list| ==> after[list[k]] == before[list[k]]
  {
  }

  /** The table after running these distributions in turn. */
  function RanAll(rows: seq<Distribution>, pending: seq<nat>, checks: Checks, scripts: nat -> Script, now: nat, rechecks: bool): (r: seq<Distribution>)
    requires forall k :: 0 <= k < |pending| ==> pending[k] < |rows|
    ensures |r| == |rows|
  {
    if pending == [] then rows
    else
      var n := |pending| - 1;
      DistributeRow(RanAll(rows, pending[..n], checks, scripts, now, rechecks), pending[n], checks, scripts(pending[n]), now, rechecks)
  }

  function RestartRow(rows: seq<Distribution>, i: nat, checks: Checks, script: Script, now: nat, rechecks: bool): (r: seq<Distribution>)
    requires i < |rows|
    ensures |r| == |rows| && forall j :: 0 <= j < |rows| && j != i ==> r[j] == rows[j]
  {
    DistributeRow(Step(rows, Requeue(i, rows[i], now), rechecks), i, checks, script, now, rechecks)
  }

  /** The table after requeueing and running these distributions in turn. */
  function Restarted(rows: seq<Distribution>, stalled: seq<nat>, checks: Checks, scripts: nat -> Script, now: nat, rechecks: bool): (r: seq<Distribution>)
    requires forall k :: 0 <= k < |stalled| ==> stalled[k] < |rows|
    ensures |r| == |rows|
  {
    if stalled == [] then rows
    else
      var n := |stalled| - 1;
      RestartRow(Restarted(rows, stalled[..n], checks, scripts, now, rechecks), stalled[n], checks, scripts(stalled[n]), now, rechecks)
  }
}
