/** Balancing of priority cases between judges: the priority target, the per-judge targets and the
    leftover cases of PushPriorityAppealsToJudgesJob. */
module PushPriorityAppealsToJudgesJob {
  import opened Prelude

  /** Cases a judge received this month, by judge id; judges without any are absent. */
  type Month = map<nat, nat>

  function Count(month: Month, judge: nat): nat {
    if judge in month then month[judge] else 0
  }

  /** The values of the hash from every eligible judge to that judge's count, in order. */
  function Counts(judges: seq<nat>, month: Month): seq<nat> {
    seq(|judges|, i requires 0 <= i < |judges| => Count(month, judges[i]))
  }

  predicate Distinct(s: seq<nat>) {
    forall i, j :: 0 <= i < j < |s| ==> s[i] != s[j]
  }

  // ---- The water level -----------------------------------------------------------------------

  /** Cases needed to bring every judge below `level` up to it. */
  function Fill(counts: seq<nat>, level: int): nat {
    if counts == [] then 0
    else (if counts[0] < level then level - counts[0] else 0) + Fill(counts[1..], level)
  }

  /** `level` is the highest level that `ready` cases can bring every lower judge up to. */
  predicate IsLevel(counts: seq<nat>, ready: nat, level: int) {
    Fill(counts, level) <= ready < Fill(counts, level + 1)
  }

  lemma {:induction false} FillMonotone(counts: seq<nat>, low: int, high: int)
    requires low <= high
    ensures Fill(counts, low) <= Fill(counts, high)
  {
    if counts != [] {
      FillMonotone(counts[1..], low, high);
    }
  }

  /** The specification of the priority target determines it. */
  lemma {:induction false} LevelIsUnique(counts: seq<nat>, ready: nat, t1: int, t2: int)
    requires IsLevel(counts, ready, t1) && IsLevel(counts, ready, t2)
    ensures t1 == t2
  {
    if t1 < t2 {
      FillMonotone(counts, t1 + 1, t2);
    } else if t2 < t1 {
      FillMonotone(counts, t2 + 1, t1);
    }
  }

  /** When nobody is above `level`, filling up to it is plain arithmetic. */
  lemma {:induction false} FillBelow(counts: seq<nat>, level: int)
    requires forall c :: c in counts ==> c <= level
    ensures Fill(counts, level) == level * |counts| - Sum(counts)
  {
    if counts != [] {
      assert forall c :: c in counts[1..] ==> c in counts;
      FillBelow(counts[1..], level);
      assert counts[0] in counts;
      Distributive(level, 1, |counts[1..]|);
    }
  }

  // ---- The shrinking loop --------------------------------------------------------------------

  function Average(counts: seq<nat>, ready: nat): int
    requires counts != []
  {
    (Sum(counts) + ready) / |counts|
  }

  function Reject(counts: seq<nat>, target: int): seq<nat> {
    if counts == [] then []
    else if counts[0] > target then Reject(counts[1..], target)
    else [counts[0]] + Reject(counts[1..], target)
  }

  lemma {:induction false} RejectFacts(counts: seq<nat>, target: int)
    ensures var kept := Reject(counts, target);
            && |kept| <= |counts|
            && (forall c :: c in kept <==> c in counts && c <= target)
            && (|kept| == |counts| ==> kept == counts)
            && Sum(kept) + (target + 1) * (|counts| - |kept|) <= Sum(counts)
            && forall level :: level <= target + 1 ==> Fill(kept, level) == Fill(counts, level)
  {
    if counts != [] {
      var kept := Reject(counts[1..], target);
      RejectFacts(counts[1..], target);
      if counts[0] > target {
        Distributive(target + 1, 1, |counts[1..]| - |kept|);
      }
    }
  }

  lemma {:induction false} DivisionBounds(a: int, n: int)
    requires n > 0
    ensures (a / n) * n <= a < (a / n + 1) * n
  {
  }

  lemma {:induction false} ProductMonotone(x: int, y: int, n: nat)
    requires x <= y
    ensures x * n <= y * n
  {
    assert (y - x) * n >= 0;
  }

  /** A quotient below `t + 1` times the divisor is at most `t`. */
  lemma {:induction false} QuotientAtMost(a: int, n: int, t: int)
    requires n > 0 && a < (t + 1) * n
    ensures a / n <= t
  {
    DivisionBounds(a, n);
    if t < a / n {
      ProductMonotone(t + 1, a / n, n);
    }
  }

  /** One round of the loop keeps at least one judge, drops somebody, and never raises the target. */
  lemma {:induction false} RoundNeverRises(counts: seq<nat>, ready: nat)
    requires counts != []
    ensures var target := Average(counts, ready);
            && Reject(counts, target) != []
            && Average(Reject(counts, target), ready) <= target
            && ((exists c :: c in counts && c > target) ==> |Reject(counts, target)| < |counts|)
  {
    var target, n := Average(counts, ready), |counts|;
    var kept := Reject(counts, target);
    RejectFacts(counts, target);
    DivisionBounds(Sum(counts) + ready, n);
    var k := |kept|;
    Distributive(target + 1, n - k, k);
    assert Sum(kept) + ready < (target + 1) * k;
    if k != 0 {
      QuotientAtMost(Sum(kept) + ready, k, target);
    }
  }

  /** The average is the level once no judge is above it. */
  lemma {:induction false} AverageIsLevel(counts: seq<nat>, ready: nat)
    requires counts != []
    requires forall c :: c in counts ==> c <= Average(counts, ready)
    ensures IsLevel(counts, ready, Average(counts, ready))
  {
    var target := Average(counts, ready);
    DivisionBounds(Sum(counts) + ready, |counts|);
    FillBelow(counts, target);
    FillBelow(counts, target + 1);
  }

  /** The priority target; dividing by the number of judges fails exactly when there is none. */
  method PriorityTarget(counts: seq<nat>, ready: nat) returns (r: Option<int>)
    ensures r.None? <==> counts == []
    ensures r.Some? ==> 0 <= r.value && IsLevel(counts, ready, r.value)
  {
    if counts == [] {
      return None;
    }
    var kept := counts;
    var target := (Sum(kept) + ready) / |kept|;
    while exists c :: c in kept && c > target
      invariant kept != [] && target == Average(kept, ready)
      invariant forall level :: level <= target + 1 ==> Fill(kept, level) == Fill(counts, level)
      decreases |kept|
    {
      RoundNeverRises(kept, ready);
      RejectFacts(kept, target);
      kept := Reject(kept, target);
      target := (Sum(kept) + ready) / |kept|;
    }
    AverageIsLevel(kept, ready);
    SumBounds(kept, 0);
    r := Some(target);
  }

  // ---- Targets and leftovers -----------------------------------------------------------------

  /** The judges not above the target, in order; zero targets are kept. */
  function Below(judges: seq<nat>, month: Month, target: int): seq<nat> {
    if judges == [] then []
    else if target - Count(month, judges[0]) >= 0 then [judges[0]] + Below(judges[1..], month, target)
    else Below(judges[1..], month, target)
  }

  /** The cases missing for each of those judges to reach the target. */
  function Targets(judges: seq<nat>, month: Month, target: int): seq<int> {
    seq(|judges|, i requires 0 <= i < |judges| => target - Count(month, judges[i]))
  }

  function LeftoverCases(judges: seq<nat>, month: Month, ready: nat, target: int): int {
    ready - Sum(Targets(Below(judges, month, target), month, target))
  }

  lemma {:induction false} TargetsFill(judges: seq<nat>, month: Month, target: int)
    ensures var below := Below(judges, month, target);
            && Sum(Targets(below, month, target)) == Fill(Counts(judges, month), target)
            && Fill(Counts(judges, month), target + 1) == Fill(Counts(judges, month), target) + |below|
  {
    if judges != [] {
      assert Counts(judges, month)[1..] == Counts(judges[1..], month);
      TargetsFill(judges[1..], month, target);
      var below := Below(judges, month, target);
      if target - Count(month, judges[0]) >= 0 {
        assert Targets(below, month, target)[1..] == Targets(Below(judges[1..], month, target), month, target);
      }
    }
  }

  /** Leftovers are never negative and always fewer than the judges who have a target. */
  lemma {:induction false} LeftoverBounds(judges: seq<nat>, month: Month, ready: nat, target: int)
    requires IsLevel(Counts(judges, month), ready, target)
    ensures 0 <= LeftoverCases(judges, month, ready, target) < |Below(judges, month, target)|
  {
    TargetsFill(judges, month, target);
  }

  lemma {:induction false} BelowMembers(judges: seq<nat>, month: Month, target: int)
    requires Distinct(judges)
    ensures var below := Below(judges, month, target);
            && Distinct(below)
            && forall j :: j in below <==> j in judges && Count(month, j) <= target
  {
    if judges != [] {
      BelowMembers(judges[1..], month, target);
      assert forall j :: j in judges <==> j == judges[0] || j in judges[1..];
    }
  }

  /** Targets in non-decreasing order. */
  predicate SortedByTarget(judges: seq<nat>, month: Month) {
    forall i, j :: 0 <= i < j < |judges| ==> Count(month, judges[i]) >= Count(month, judges[j])
  }

  /** `sort_by(&:last)`: a reordering with non-decreasing targets; the order of ties is open. */
  method SortByTarget(judges: seq<nat>, month: Month) returns (sorted: seq<nat>)
    requires Distinct(judges)
    ensures SortedByTarget(sorted, month)
    ensures Distinct(sorted) && |sorted| == |judges| && forall j :: j in sorted <==> j in judges
  {
    sorted := [];
    for n := 0 to |judges|
      invariant SortedByTarget(sorted, month)
      invariant Distinct(sorted) && |sorted| == n && forall j :: j in sorted <==> j in judges[..n]
    {
      var judge := judges[n];
      var k := 0;
      while k < |sorted| && Count(month, sorted[k]) >= Count(month, judge)
        invariant 0 <= k <= |sorted|
        invariant forall i :: 0 <= i < k ==> Count(month, sorted[i]) >= Count(month, judge)
      {
        k := k + 1;
      }
      InsertedAt(sorted, judge, k);
      InsertedKeepsOrder(sorted, month, judge, k);
      assert judge !in judges[..n];
      assert forall j :: j in judges[..n + 1] <==> j in judges[..n] || j == judge;
      sorted := sorted[..k] + [judge] + sorted[k..];
    }
    assert judges[..|judges|] == judges;
  }

  lemma {:induction false} InsertedAt(sorted: seq<nat>, judge: nat, k: nat)
    requires k <= |sorted|
    ensures var longer := sorted[..k] + [judge] + sorted[k..];
            && |longer| == |sorted| + 1
            && (forall i :: 0 <= i < |longer| ==>
                  longer[i] == if i < k then sorted[i] else if i == k then judge else sorted[i - 1])
            && forall j :: j in longer <==> j in sorted || j == judge
  {
    assert sorted == sorted[..k] + sorted[k..];
  }

  lemma {:induction false} InsertedKeepsOrder(sorted: seq<nat>, month: Month, judge: nat, k: nat)
    requires SortedByTarget(sorted, month) && Distinct(sorted) && judge !in sorted && k <= |sorted|
    requires forall i :: 0 <= i < k ==> Count(month, sorted[i]) >= Count(month, judge)
    requires k < |sorted| ==> Count(month, sorted[k]) < Count(month, judge)
    ensures var longer := sorted[..k] + [judge] + sorted[k..];
            SortedByTarget(longer, month) && Distinct(longer)
  {
    InsertedAt(sorted, judge, k);
  }

  // ---- What a push gives ---------------------------------------------------------------------

  /** Cases handed to each judge, in the order of the judges. */
  function Gives(judges: seq<nat>, allocation: map<nat, nat>): seq<nat> {
    seq(|judges|, i requires 0 <= i < |judges| => if judges[i] in allocation then allocation[judges[i]] else 0)
  }

  /** An even push: it hands out exactly the ready cases; judges at or below the level end at the
      level or one above it, and judges above it get nothing. */
  predicate Even(counts: seq<nat>, ready: nat, level: int, gives: seq<nat>) {
    && |gives| == |counts|
    && IsLevel(counts, ready, level)
    && Sum(gives) == ready
    && forall i :: 0 <= i < |counts| ==>
         if counts[i] <= level then level <= counts[i] + gives[i] <= level + 1 else gives[i] == 0
  }

  /** The extra case goes to judges with the smallest targets, that is, to those nearest the level. */
  predicate SmallestTargetsFirst(counts: seq<nat>, level: int, gives: seq<nat>)
    requires |gives| == |counts|
  {
    forall i, j | 0 <= i < |counts| && 0 <= j < |counts| && counts[i] <= level && counts[j] <= level ::
      counts[i] + gives[i] == level + 1 && counts[j] + gives[j] == level ==> counts[i] >= counts[j]
  }

  predicate EvenPush(judges: seq<nat>, month: Month, ready: nat, level: int, gives: seq<nat>) {
    && Even(Counts(judges, month), ready, level, gives)
    && SmallestTargetsFirst(Counts(judges, month), level, gives)
  }

  /** What a judge is given when exactly the judges in `bonus` get one leftover case. */
  function WithBonus(month: Month, level: int, bonus: set<nat>, judge: nat): int {
    if Count(month, judge) > level then 0
    else level - Count(month, judge) + if judge in bonus then 1 else 0
  }

  function AllWithBonus(judges: seq<nat>, month: Month, level: int, bonus: set<nat>): seq<int> {
    seq(|judges|, i requires 0 <= i < |judges| => WithBonus(month, level, bonus, judges[i]))
  }

  lemma {:induction false} FirstJudge(judges: seq<nat>, month: Month, level: int, bonus: set<nat>)
    requires judges != [] && Distinct(judges)
    ensures Fill(Counts(judges, month), level)
         == (if Count(month, judges[0]) < level then level - Count(month, judges[0]) else 0) + Fill(Counts(judges[1..], month), level)
    ensures Sum(AllWithBonus(judges, month, level, bonus))
         == WithBonus(month, level, bonus, judges[0]) + Sum(AllWithBonus(judges[1..], month, level, bonus - {judges[0]}))
  {
    assert Counts(judges, month)[1..] == Counts(judges[1..], month);
    BonusOfRest(judges, month, level, bonus);
  }

  lemma {:induction false} SumWithBonus(judges: seq<nat>, month: Month, level: int, bonus: set<nat>)
    requires Distinct(judges)
    requires forall b :: b in bonus ==> b in judges && Count(month, b) <= level
    ensures Sum(AllWithBonus(judges, month, level, bonus)) == Fill(Counts(judges, month), level) + |bonus|
  {
    if judges == [] {
      assert bonus == {};
    } else {
      FirstJudge(judges, month, level, bonus);
      WithoutElement(bonus, judges[0]);
      SumWithBonus(judges[1..], month, level, bonus - {judges[0]});
    }
  }

  lemma {:induction false} WithoutElement(s: set<nat>, x: nat)
    ensures |s| == |s - {x}| + if x in s then 1 else 0
  {
    assert x in s ==> s == (s - {x}) + {x};
    assert x !in s ==> s == s - {x};
  }

  lemma {:induction false} BonusOfRest(judges: seq<nat>, month: Month, level: int, bonus: set<nat>)
    requires judges != [] && Distinct(judges)
    ensures AllWithBonus(judges, month, level, bonus)[1..]
         == AllWithBonus(judges[1..], month, level, bonus - {judges[0]})
  {
    forall i | 1 <= i < |judges|
      ensures WithBonus(month, level, bonus, judges[i])
           == WithBonus(month, level, bonus - {judges[0]}, judges[1..][i - 1])
    {
      assert judges[0] != judges[i];
    }
  }

  function Members(s: seq<nat>): set<nat> {
    set j | j in s
  }

  lemma {:induction false} MembersCount(s: seq<nat>)
    requires Distinct(s)
    ensures |Members(s)| == |s|
  {
    if s != [] {
      MembersCount(s[1..]);
      assert Members(s) == Members(s[1..]) + {s[0]};
    }
  }

  lemma {:induction false} FirstOnes(s: seq<nat>, n: nat, m: nat)
    requires Distinct(s) && n <= |s| && m < |s|
    ensures s[m] in Members(s[..n]) <==> m < n
  {
    if m < n {
      assert s[..n][m] == s[m];
    }
  }

  /** Targets with one more case for each of the first `leftover` judges, read per judge, form an
      even push. */
  lemma {:induction false} LeftoversAreEven(judges: seq<nat>, month: Month, ready: nat, level: int, sorted: seq<nat>,
                                            gives: seq<nat>)
    requires Distinct(judges) && Distinct(sorted) && SortedByTarget(sorted, month)
    requires IsLevel(Counts(judges, month), ready, level)
    requires |sorted| == |Below(judges, month, level)|
    requires forall j :: j in sorted <==> j in judges && Count(month, j) <= level
    requires var leftover := LeftoverCases(judges, month, ready, level);
             0 <= leftover < |sorted|
             && gives == AllWithBonus(judges, month, level, Members(sorted[..leftover]))
    ensures EvenPush(judges, month, ready, level, gives)
  {
    var leftover := LeftoverCases(judges, month, ready, level);
    var bonus := Members(sorted[..leftover]);
    TargetsFill(judges, month, level);
    MembersCount(sorted[..leftover]);
    SumWithBonus(judges, month, level, bonus);
    forall i, j | 0 <= i < |judges| && 0 <= j < |judges|
      && Count(month, judges[i]) <= level && Count(month, judges[j]) <= level
      && judges[i] in bonus && judges[j] !in bonus
      ensures Count(month, judges[i]) >= Count(month, judges[j])
    {
      var m :| 0 <= m < leftover && sorted[m] == judges[i];
      assert judges[j] in sorted;
      var n :| 0 <= n < |sorted| && sorted[n] == judges[j];
      FirstOnes(sorted, leftover, n);
    }
  }

  /** Walks the sorted targets, giving one leftover case to each judge while any is left and dropping
      judges who would get nothing. */
  method HandOut(sorted: seq<nat>, month: Month, level: int, leftover: nat) returns (allocation: map<nat, nat>)
    requires Distinct(sorted) && leftover <= |sorted|
    requires forall j :: j in sorted ==> Count(month, j) <= level
    ensures var bonus := Members(sorted[..leftover]);
            && (forall j :: j in allocation ==> j in sorted && 0 < allocation[j] == WithBonus(month, level, bonus, j))
            && forall j :: j in sorted && j !in allocation ==> WithBonus(month, level, bonus, j) == 0
  {
    allocation := map[];
    var leftoverCases := leftover;
    ghost var bonus := Members(sorted[..leftover]);
    for m := 0 to |sorted|
      invariant leftoverCases == if m < leftover then leftover - m else 0
      invariant forall j :: j in allocation ==>
        j in sorted[..m] && 0 < allocation[j] == WithBonus(month, level, bonus, j)
      invariant forall j :: j in sorted[..m] && j !in allocation ==> WithBonus(month, level, bonus, j) == 0
    {
      var judge := sorted[m];
      var target := level - Count(month, judge);
      FirstOnes(sorted, leftover, m);
      assert forall j :: j in sorted[..m + 1] <==> j in sorted[..m] || j == judge;
      if leftoverCases > 0 {
        leftoverCases := leftoverCases - 1;
        target := target + 1;
      }
      if target > 0 {
        allocation := allocation[judge := target];
      }
    }
    assert sorted[..|sorted|] == sorted;
  }

  /** Per-judge numbers of cases to push. With at least one judge they form an even push of all the
      ready cases; without one nothing is handed out. */
  method TargetDistributionsWithLeftovers(judges: seq<nat>, month: Month, ready: nat) returns (allocation: map<nat, nat>)
    requires Distinct(judges)
    ensures forall j :: j in allocation ==> j in judges && allocation[j] > 0
    ensures judges != [] ==> exists level ::
      EvenPush(judges, month, ready, level, Gives(judges, allocation)) && EvensMonth(judges, month, level, allocation)
    ensures Sum(Gives(judges, allocation)) == ready <==> judges != [] || ready == 0
  {
    allocation := map[];
    if judges == [] {
      return;
    }
    var found := PriorityTarget(Counts(judges, month), ready);
    var level := found.value;
    var leftover := LeftoverCases(judges, month, ready, level);
    LeftoverBounds(judges, month, ready, level);
    BelowMembers(judges, month, level);
    var sorted := SortByTarget(Below(judges, month, level), month);
    allocation := HandOut(sorted, month, level, leftover);
    assert Gives(judges, allocation) == AllWithBonus(judges, month, level, Members(sorted[..leftover]));
    LeftoversAreEven(judges, month, ready, level, sorted, Gives(judges, allocation));
    assert EvenPush(judges, month, ready, level, Gives(judges, allocation));
    EvenPushEvensMonth(judges, month, ready, level, allocation);
  }

  /** Read over the month itself, a judge absent from it counting as zero: those at or below the level end at it or one
      above, the others get nothing, and nobody but the judges gets any. */
  predicate EvensMonth(judges: seq<nat>, month: Month, level: int, allocation: map<nat, nat>) {
    && (forall j :: j in allocation ==> j in judges && allocation[j] > 0)
    && forall j :: j in judges ==>
         var had, given := if j in month then month[j] else 0, if j in allocation then allocation[j] else 0;
         if had <= level then level <= had + given <= level + 1 else given == 0
  }

  lemma {:induction false} EvenPushEvensMonth(judges: seq<nat>, month: Month, ready: nat, level: int,
                                              allocation: map<nat, nat>)
    requires EvenPush(judges, month, ready, level, Gives(judges, allocation))
    requires forall j :: j in allocation ==> j in judges && allocation[j] > 0
    ensures EvensMonth(judges, month, level, allocation)
  {
    forall j | j in judges
      ensures var had, given := if j in month then month[j] else 0, if j in allocation then allocation[j] else 0;
              if had <= level then level <= had + given <= level + 1 else given == 0
    {
      var i :| 0 <= i < |judges| && judges[i] == j;
      assert Counts(judges, month)[i] == Count(month, j);
      assert Gives(judges, allocation)[i] == if j in allocation then allocation[j] else 0;
    }
  }

  // ---- Fairness ------------------------------------------------------------------------------

  function FinalCounts(counts: seq<nat>, gives: seq<nat>): seq<nat>
    requires |counts| == |gives|
  {
    seq(|counts|, i requires 0 <= i < |counts| => counts[i] + gives[i])
  }

  lemma {:induction false} FillAtMost(counts: seq<nat>, other: seq<nat>, level: int)
    requires |counts| == |other|
    requires forall i :: 0 <= i < |counts| ==> level <= counts[i] + other[i]
    ensures Fill(counts, level) <= Sum(other)
  {
    if counts != [] {
      assert level <= counts[0] + other[0];
      FillAtMost(counts[1..], other[1..], level);
    }
  }

  /** No other way to hand out the same cases leaves every judge with more than the even push does. */
  lemma {:induction false} NoBetterMinimum(counts: seq<nat>, ready: nat, level: int, gives: seq<nat>, other: seq<nat>,
                                           low: int)
    requires Even(counts, ready, level, gives)
    requires |other| == |counts| && Sum(other) == ready
    requires forall i :: 0 <= i < |counts| ==> low <= FinalCounts(counts, other)[i]
    ensures low <= level
    ensures forall i :: 0 <= i < |counts| ==> low <= FinalCounts(counts, gives)[i]
  {
    assert forall i :: 0 <= i < |counts| ==> low <= counts[i] + other[i] by {
      assert forall i :: 0 <= i < |counts| ==> FinalCounts(counts, other)[i] == counts[i] + other[i];
    }
    if level < low {
      FillMonotone(counts, level + 1, low);
      FillAtMost(counts, other, low);
    }
  }

  function SumSquares(s: seq<int>): int {
    if s == [] then 0 else s[0] * s[0] + SumSquares(s[1..])
  }

  /** A square less its slope of `2 * level + 1`; it is smallest at `level` and `level + 1`. */
  function Bent(x: int, level: int): int {
    x * x - (2 * level + 1) * x
  }

  function SumBent(s: seq<int>, level: int): int {
    if s == [] then 0 else Bent(s[0], level) + SumBent(s[1..], level)
  }

  /** Measured from the level, the bent square is a product of neighbours, up to a constant. */
  lemma {:induction false} BentAt(d: int, level: int)
    ensures Bent(level + d, level) == d * (d - 1) - level * (level + 1)
  {
    Distributive(level + d, level, d);
    Distributive(level, level, d);
    Distributive(d, level, d);
  }

  lemma {:induction false} NeighboursGrow(c: int, d: int)
    requires c == 0 || 1 <= c <= d || (c == 1 && d <= 0)
    ensures c * (c - 1) <= d * (d - 1)
  {
    if 1 <= c <= d {
      ProductMonotone(c, d, c - 1);
      ProductMonotone(c - 1, d - 1, d);
    } else if d <= 0 {
      ProductMonotone(0, -d, 1 - d);
      assert (-d) * (1 - d) == d * (d - 1);
    } else {
      ProductMonotone(0, d, d - 1);
    }
  }

  lemma {:induction false} BentIsLeast(x: int, y: int, level: int)
    requires x == level || x == level + 1 || level < x <= y
    ensures Bent(x, level) <= Bent(y, level)
  {
    BentAt(x - level, level);
    BentAt(y - level, level);
    NeighboursGrow(x - level, y - level);
  }

  lemma {:induction false} SumBentMonotone(s: seq<int>, t: seq<int>, level: int)
    requires |s| == |t| && forall i :: 0 <= i < |s| ==> Bent(s[i], level) <= Bent(t[i], level)
    ensures SumBent(s, level) <= SumBent(t, level)
  {
    if s != [] {
      SumBentMonotone(s[1..], t[1..], level);
    }
  }

  lemma {:induction false} SumBentIs(s: seq<int>, level: int)
    ensures SumBent(s, level) == SumSquares(s) - (2 * level + 1) * Sum(s)
  {
    if s != [] {
      SumBentIs(s[1..], level);
      var slope, rest := 2 * level + 1, Sum(s[1..]);
      Distributive(slope, s[0], rest);
    }
  }

  /** The even push minimises the sum of squared final counts over every way to hand out the cases. */
  lemma {:induction false} NoSmallerSquares(counts: seq<nat>, ready: nat, level: int, gives: seq<nat>, other: seq<nat>)
    requires Even(counts, ready, level, gives)
    requires |other| == |counts| && Sum(other) == ready
    ensures SumSquares(FinalCounts(counts, gives)) <= SumSquares(FinalCounts(counts, other))
  {
    var best, another := FinalCounts(counts, gives), FinalCounts(counts, other);
    forall i | 0 <= i < |counts|
      ensures Bent(best[i], level) <= Bent(another[i], level)
    {
      BentIsLeast(counts[i] + gives[i], counts[i] + other[i], level);
    }
    SumBentMonotone(best, another, level);
    SumBentIs(best, level);
    SumBentIs(another, level);
    SumAfter(counts, gives);
    SumAfter(counts, other);
  }

  // ---- Several pushes ------------------------------------------------------------------------

  lemma {:induction false} FillAfter(counts: seq<nat>, gives: seq<nat>, level: int, higher: int)
    requires |counts| == |gives| && level <= higher
    requires forall i :: 0 <= i < |counts| ==>
      if counts[i] <= level then level <= counts[i] + gives[i] <= level + 1 else gives[i] == 0
    ensures higher > level ==> Fill(FinalCounts(counts, gives), higher) == Fill(counts, higher) - Sum(gives)
    ensures higher == level ==> Fill(FinalCounts(counts, gives), higher) == 0
  {
    if counts != [] {
      FillAfter(counts[1..], gives[1..], level, higher);
      assert FinalCounts(counts, gives)[1..] == FinalCounts(counts[1..], gives[1..]);
      assert FinalCounts(counts, gives)[0] == counts[0] + gives[0];
    }
  }

  lemma {:induction false} SumAfter(counts: seq<nat>, gives: seq<nat>)
    requires |counts| == |gives|
    ensures Sum(FinalCounts(counts, gives)) == Sum(counts) + Sum(gives)
  {
    if counts != [] {
      SumAfter(counts[1..], gives[1..]);
      assert FinalCounts(counts, gives)[1..] == FinalCounts(counts[1..], gives[1..]);
    }
  }

  /** Two pushes in a row are one even push of all their cases. */
  lemma {:induction false} PushesCompose(counts: seq<nat>, ready1: nat, level1: int, gives1: seq<nat>, ready2: nat,
                                         level2: int, gives2: seq<nat>)
    requires Even(counts, ready1, level1, gives1)
    requires Even(FinalCounts(counts, gives1), ready2, level2, gives2)
    ensures level1 <= level2
    ensures Even(counts, ready1 + ready2, level2, FinalCounts(gives1, gives2))
  {
    var after := FinalCounts(counts, gives1);
    if level2 < level1 {
      FillAfter(counts, gives1, level1, level1);
      FillMonotone(after, level2 + 1, level1);
    }
    FillAfter(counts, gives1, level1, level2);
    FillAfter(counts, gives1, level1, level2 + 1);
    SumAfter(gives1, gives2);
    forall i | 0 <= i < |counts|
      ensures var total := FinalCounts(gives1, gives2)[i];
              if counts[i] <= level2 then level2 <= counts[i] + total <= level2 + 1 else total == 0
    {
      assert after[i] == counts[i] + gives1[i];
    }
  }

  lemma {:induction false} FinalCountsCompose(counts: seq<nat>, gives1: seq<nat>, gives2: seq<nat>)
    requires |counts| == |gives1| == |gives2|
    ensures FinalCounts(FinalCounts(counts, gives1), gives2) == FinalCounts(counts, FinalCounts(gives1, gives2))
  {
  }

  /** The cases and the gives of one push. */
  datatype Push = Push(ready: nat, gives: seq<nat>)

  /** Each push in turn is even on the counts the earlier ones left. */
  ghost predicate EvenPushes(counts: seq<nat>, pushes: seq<Push>)
    decreases |pushes|
  {
    pushes != [] ==>
      && (exists level :: Even(counts, pushes[0].ready, level, pushes[0].gives))
      && EvenPushes(FinalCounts(counts, pushes[0].gives), pushes[1..])
  }

  function AfterPushes(counts: seq<nat>, pushes: seq<Push>): seq<nat>
    requires EvenPushes(counts, pushes)
    decreases |pushes|
  {
    if pushes == [] then counts else AfterPushes(FinalCounts(counts, pushes[0].gives), pushes[1..])
  }

  function TotalReady(pushes: seq<Push>): nat {
    if pushes == [] then 0 else pushes[0].ready + TotalReady(pushes[1..])
  }

  /** However many pushes are made within the month, the judges end as after one even push of all the
      cases: the weekly rounding loses nothing. */
  lemma {:induction false} ManyPushesAreOne(counts: seq<nat>, pushes: seq<Push>) returns (level: int, gives: seq<nat>)
    requires pushes != [] && EvenPushes(counts, pushes)
    ensures Even(counts, TotalReady(pushes), level, gives)
    ensures AfterPushes(counts, pushes) == FinalCounts(counts, gives)
    decreases |pushes|
  {
    var first := pushes[0];
    var level1 :| Even(counts, first.ready, level1, first.gives);
    if |pushes| == 1 {
      level, gives := level1, first.gives;
      assert pushes[1..] == [];
    } else {
      var rest: seq<nat>;
      level, rest := ManyPushesAreOne(FinalCounts(counts, first.gives), pushes[1..]);
      PushesCompose(counts, first.ready, level1, first.gives, TotalReady(pushes[1..]), level, rest);
      gives := FinalCounts(first.gives, rest);
      FinalCountsCompose(counts, first.gives, rest);
    }
  }

  /** Once the cases are enough to reach the busiest judge, any two judges differ by at most one. */
  lemma {:induction false} EvensOut(counts: seq<nat>, pushes: seq<Push>, i: nat, j: nat)
    requires pushes != [] && EvenPushes(counts, pushes)
    requires i < |counts| && j < |counts|
    requires forall c :: c in counts ==> Fill(counts, c) <= TotalReady(pushes)
    ensures |AfterPushes(counts, pushes)| == |counts|
    ensures AfterPushes(counts, pushes)[i] <= AfterPushes(counts, pushes)[j] + 1
  {
    var level, gives := ManyPushesAreOne(counts, pushes);
    forall c | c in counts
      ensures c <= level
    {
      if level < c {
        FillMonotone(counts, level + 1, c);
      }
    }
    assert counts[i] in counts && counts[j] in counts;
  }
}
