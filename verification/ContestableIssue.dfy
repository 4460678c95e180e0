/** The walk up the chain of request and decision issues to the latest contestable issues. */
module ContestableIssues {
  import opened Prelude
  import opened Forests

  /** What identifies an issue when looking for the request issue that contests it; a decision issue is
      known by its position in the table. */
  datatype Issue = Issue(ratingIssue: Option<string>, ratingDecision: Option<string>, decision: Option<nat>)

  datatype RequestIssue = RequestIssue(
    active: bool, contestedRatingIssue: Option<string>, contestedRatingDecision: Option<string>,
    contestedDecision: Option<nat>, decisions: seq<nat>, at: nat)

  datatype DecisionIssue = DecisionIssue(ratingIssue: Option<string>, at: nat)

  datatype Records = Records(requests: seq<RequestIssue>, decisions: seq<DecisionIssue>)

  /** Decisions of request issues exist. */
  predicate Valid(w: Records) {
    forall r, k :: 0 <= r < |w.requests| && 0 <= k < |w.requests[r].decisions| ==> w.requests[r].decisions[k] < |w.decisions|
  }

  predicate Contests(r: RequestIssue, issue: Issue) {
    && r.active && r.contestedRatingIssue == issue.ratingIssue
    && r.contestedRatingDecision == issue.ratingDecision && r.contestedDecision == issue.decision
  }

  /** The first active request issue that contests the issue, or the number of request issues. */
  function ContestedBy(requests: seq<RequestIssue>, issue: Issue): nat {
    if requests == [] || Contests(requests[0], issue) then 0 else 1 + ContestedBy(requests[1..], issue)
  }

  /** The issue a request issue names as the one it contests. */
  function ContestedIssue(r: RequestIssue): Issue {
    Issue(r.contestedRatingIssue, r.contestedRatingDecision, r.contestedDecision)
  }

  lemma {:induction false} ContestedByIs(requests: seq<RequestIssue>, issue: Issue)
    ensures var r := ContestedBy(requests, issue);
            && r <= |requests|
            && (r < |requests| ==> requests[r].active && ContestedIssue(requests[r]) == issue)
            && forall i :: 0 <= i < r && requests[i].active ==> ContestedIssue(requests[i]) != issue
  {
    if requests != [] && !Contests(requests[0], issue) {
      ContestedByIs(requests[1..], issue);
      assert forall i :: 1 <= i < |requests| ==> requests[i] == requests[1..][i - 1];
    }
  }

  function NextDecisions(w: Records, issue: Issue): (r: seq<nat>)
    requires Valid(w)
    ensures forall k :: 0 <= k < |r| ==> r[k] < |w.decisions|
  {
    var r := ContestedBy(w.requests, issue);
    if r < |w.requests| then w.requests[r].decisions else []
  }

  function FromDecision(w: Records, d: nat): Issue
    requires d < |w.decisions|
  {
    Issue(w.decisions[d].ratingIssue, None, Some(d))
  }

  // ---- The walk --------------------------------------------------------------------------------------

  /** `find_latest_contestable_issues` with at most `fuel` nested calls; `None` if that is not enough. */
  function Latest(w: Records, issue: Issue, fuel: nat): Option<seq<Issue>>
    requires Valid(w)
    decreases fuel, 0
  {
    if fuel == 0 then None
    else
      var next := NextDecisions(w, issue);
      if next == [] then Some([issue]) else LatestOfAll(w, next, fuel - 1)
  }

  function LatestOfAll(w: Records, decisions: seq<nat>, fuel: nat): Option<seq<Issue>>
    requires Valid(w) && forall k :: 0 <= k < |decisions| ==> decisions[k] < |w.decisions|
    decreases fuel, 1, |decisions|
  {
    if decisions == [] then Some([])
    else
      var first := Latest(w, FromDecision(w, decisions[0]), fuel);
      var rest := LatestOfAll(w, decisions[1..], fuel);
      if first.None? || rest.None? then None else Some(first.value + rest.value)
  }

  /** The recursion ends. */
  ghost predicate Terminates(w: Records, issue: Issue)
    requires Valid(w)
  {
    exists fuel :: Latest(w, issue, fuel).Some?
  }

  // ---- Chains ----------------------------------------------------------------------------------------

  /** Which decisions follow: first the issue the walk starts from, then each decision. */
  datatype Chains = Chains(first: seq<nat>, next: seq<seq<nat>>)

  /** A place on a chain: a decision, or `None` for the issue the walk starts from. */
  type Place = Option<nat>

  predicate On(g: Chains, x: Place) { x.Some? ==> x.value < |g.next| }

  function Next(g: Chains, x: Place): seq<nat>
    requires On(g, x)
  {
    if x.None? then g.first else g.next[x.value]
  }

  function At(x: Place, p: seq<nat>, k: nat): Place
    requires k <= |p|
  {
    if k == 0 then x else Some(p[k - 1])
  }

  predicate InRange(g: Chains, x: Place, p: seq<nat>) {
    On(g, x) && forall k :: 0 <= k < |p| ==> p[k] < |g.next|
  }

  predicate Follows(g: Chains, x: Place, p: seq<nat>, k: nat)
    requires InRange(g, x, p) && k < |p|
  {
    p[k] in Next(g, At(x, p, k))
  }

  /** Each decision of the path follows the place before it. */
  predicate Path(g: Chains, x: Place, p: seq<nat>) {
    InRange(g, x, p) && forall k :: 0 <= k < |p| ==> Follows(g, x, p, k)
  }

  function End(x: Place, p: seq<nat>): Place { At(x, p, |p|) }

  lemma {:induction false} PathConcat(g: Chains, x: Place, p: seq<nat>, q: seq<nat>)
    requires Path(g, x, p) && Path(g, End(x, p), q)
    ensures Path(g, x, p + q) && End(x, p + q) == End(End(x, p), q)
  {
    forall k | 0 <= k < |p + q|
      ensures Follows(g, x, p + q, k)
    {
      if k < |p| {
        assert Follows(g, x, p, k);
      } else {
        assert Follows(g, End(x, p), q, k - |p|);
      }
    }
  }

  lemma {:induction false} PathSplit(g: Chains, x: Place, p: seq<nat>, n: nat)
    requires Path(g, x, p) && n <= |p|
    ensures Path(g, x, p[..n]) && End(x, p[..n]) == At(x, p, n)
    ensures Path(g, At(x, p, n), p[n..]) && End(At(x, p, n), p[n..]) == End(x, p)
  {
    forall k | 0 <= k < n
      ensures Follows(g, x, p[..n], k)
    {
      assert Follows(g, x, p, k);
    }
    forall k | 0 <= k < |p| - n
      ensures Follows(g, At(x, p, n), p[n..], k)
    {
      assert Follows(g, x, p, n + k);
    }
  }

  lemma {:induction false} OneStep(g: Chains, x: Place, d: nat)
    requires On(g, x) && d < |g.next| && d in Next(g, x)
    ensures Path(g, x, [d]) && End(x, [d]) == Some(d)
  {
    assert Follows(g, x, [d], 0);
  }

  /** Going round from `x` gets back to `x`. */
  predicate Round(g: Chains, x: Place, q: seq<nat>) {
    q != [] && Path(g, x, q) && End(x, q) == x
  }

  /** Some decision on a chain is among the later decisions of its own chain. */
  ghost predicate HasCycle(g: Chains) {
    exists p, q :: Path(g, None, p) && Round(g, End(None, p), q)
  }

  /** Going round a cycle often enough gives a path as long as one likes. */
  lemma {:induction false} LongPath(g: Chains, x: Place, q: seq<nat>, n: nat) returns (p: seq<nat>)
    requires Round(g, x, q)
    ensures Path(g, x, p) && |p| >= n && End(x, p) == x
  {
    if n == 0 {
      p := [];
    } else {
      var shorter := LongPath(g, x, q, n - 1);
      PathConcat(g, x, q, shorter);
      p := q + shorter;
    }
  }

  /** A path that repeats a decision goes round a cycle. */
  lemma {:induction false} RepetitionIsCycle(g: Chains, p: seq<nat>, m: nat, n: nat)
    requires Path(g, None, p) && m < n < |p| && p[m] == p[n]
    ensures HasCycle(g)
  {
    PathSplit(g, None, p, m + 1);
    PathSplit(g, Some(p[m]), p[m + 1..], n - m);
    assert Round(g, End(None, p[..m + 1]), p[m + 1..][..n - m]);
  }

  lemma {:induction false} ElementsCount(p: seq<nat>, n: nat)
    requires forall k :: 0 <= k < |p| ==> p[k] < n
    requires forall i, j :: 0 <= i < j < |p| ==> p[i] != p[j]
    ensures |p| <= n
  {
    var elements: set<nat> := set d: nat | d in p;
    CardinalityOfDistinct(p);
    AtMost(elements, n);
  }

  lemma {:induction false} CardinalityOfDistinct(p: seq<nat>)
    requires forall i, j :: 0 <= i < j < |p| ==> p[i] != p[j]
    ensures |set d: nat | d in p| == |p|
  {
    if p != [] {
      CardinalityOfDistinct(p[1..]);
      assert p[0] !in p[1..];
      assert (set d: nat | d in p) == (set d: nat | d in p[1..]) + {p[0]};
    }
  }

  /** Without a cycle no path is longer than there are decisions. */
  lemma {:induction false} ShortWithoutCycle(g: Chains, p: seq<nat>)
    requires !HasCycle(g) && Path(g, None, p)
    ensures |p| <= |g.next|
  {
    forall m, n | 0 <= m < n < |p|
      ensures p[m] != p[n]
    {
      if p[m] == p[n] {
        RepetitionIsCycle(g, p, m, n);
      }
    }
    ElementsCount(p, |g.next|);
  }

  // ---- Chains of a walk ------------------------------------------------------------------------------

  function ChainsOf(w: Records, issue: Issue): (g: Chains)
    requires Valid(w)
    ensures |g.next| == |w.decisions|
  {
    Chains(NextDecisions(w, issue),
           seq(|w.decisions|, d requires 0 <= d < |w.decisions| => NextDecisions(w, FromDecision(w, d))))
  }

  function IssueOf(w: Records, issue: Issue, x: Place): Issue
    requires x.Some? ==> x.value < |w.decisions|
  {
    if x.None? then issue else FromDecision(w, x.value)
  }

  /** What follows a decision are the decisions of the first active request issue contesting it by its position and
      rating issue and by no rating decision; nothing follows without one. */
  lemma {:induction false} FollowersOf(w: Records, issue: Issue, d: nat, r: nat)
    requires Valid(w) && d < |w.decisions| && r <= |w.requests|
    requires r < |w.requests| ==>
      w.requests[r].active && ContestedIssue(w.requests[r]) == Issue(w.decisions[d].ratingIssue, None, Some(d))
    requires forall i :: 0 <= i < r && w.requests[i].active ==>
      ContestedIssue(w.requests[i]) != Issue(w.decisions[d].ratingIssue, None, Some(d))
    ensures Next(ChainsOf(w, issue), Some(d)) == if r < |w.requests| then w.requests[r].decisions else []
  {
    ContestedByIs(w.requests, FromDecision(w, d));
  }

  lemma {:induction false} FollowersExist(w: Records, issue: Issue)
    requires Valid(w)
    ensures var g := ChainsOf(w, issue);
            forall y: Place :: On(g, y) ==> forall d :: d in Next(g, y) ==> d < |g.next|
  {
  }

  /** What the walk finds at a place, one call of `find_latest_contestable_issues`. */
  lemma {:induction false} LatestAt(w: Records, issue: Issue, x: Place, fuel: nat)
    requires Valid(w) && On(ChainsOf(w, issue), x) && fuel > 0
    ensures forall k :: 0 <= k < |Next(ChainsOf(w, issue), x)| ==> Next(ChainsOf(w, issue), x)[k] < |w.decisions|
    ensures Latest(w, IssueOf(w, issue, x), fuel) ==
      if Next(ChainsOf(w, issue), x) == [] then Some([IssueOf(w, issue, x)])
      else LatestOfAll(w, Next(ChainsOf(w, issue), x), fuel - 1)
  {
    assert Next(ChainsOf(w, issue), x) == NextDecisions(w, IssueOf(w, issue, x));
  }

  /** Each call on the way along a path has less fuel. */
  lemma {:induction false} PathsShorterThanFuel(w: Records, issue: Issue, x: Place, fuel: nat, p: seq<nat>)
    requires Valid(w) && Path(ChainsOf(w, issue), x, p) && Latest(w, IssueOf(w, issue, x), fuel).Some?
    ensures |p| < fuel
    decreases fuel
  {
    if p != [] {
      var g := ChainsOf(w, issue);
      LatestAt(w, issue, x, fuel);
      assert Follows(g, x, p, 0);
      AllHaveLatest(w, Next(g, x), fuel - 1, p[0]);
      PathSplit(g, x, p, 1);
      PathsShorterThanFuel(w, issue, Some(p[0]), fuel - 1, p[1..]);
    }
  }

  lemma {:induction false} AllHaveLatest(w: Records, decisions: seq<nat>, fuel: nat, d: nat)
    requires Valid(w) && forall k :: 0 <= k < |decisions| ==> decisions[k] < |w.decisions|
    requires LatestOfAll(w, decisions, fuel).Some? && d in decisions
    ensures d < |w.decisions| && Latest(w, FromDecision(w, d), fuel).Some?
    decreases |decisions|
  {
    if d != decisions[0] {
      AllHaveLatest(w, decisions[1..], fuel, d);
    }
  }

  ghost predicate AllShorter(g: Chains, x: Place, n: nat) {
    forall p :: Path(g, x, p) ==> |p| < n
  }

  lemma {:induction false} EmptyIsShorter(g: Chains, x: Place, n: nat)
    requires On(g, x) && AllShorter(g, x, n)
    ensures n > 0
  {
    assert Path(g, x, []);
  }

  lemma {:induction false} ShorterAfterStep(g: Chains, x: Place, d: nat, n: nat)
    requires On(g, x) && d < |g.next| && d in Next(g, x) && n > 0 && AllShorter(g, x, n)
    ensures AllShorter(g, Some(d), n - 1)
  {
    OneStep(g, x, d);
    forall p | Path(g, Some(d), p)
      ensures |p| < n - 1
    {
      PathConcat(g, x, [d], p);
    }
  }

  lemma {:induction false} LongerThan(g: Chains, n: nat) returns (p: seq<nat>)
    requires HasCycle(g)
    ensures Path(g, None, p) && |p| >= n
  {
    var before, q :| Path(g, None, before) && Round(g, End(None, before), q);
    var long := LongPath(g, End(None, before), q, n);
    PathConcat(g, None, before, long);
    p := before + long;
  }

  lemma {:induction false} ShorterWithoutCycle(g: Chains)
    requires !HasCycle(g)
    ensures AllShorter(g, None, |g.next| + 1)
  {
    forall p | Path(g, None, p)
      ensures |p| < |g.next| + 1
    {
      ShortWithoutCycle(g, p);
    }
  }

  /** Nothing is left to follow from `x` after fewer than `n` steps. */
  predicate EndsWithin(g: Chains, x: Place, n: nat)
    requires On(g, x)
    decreases n
  {
    n > 0 && forall d :: d in Next(g, x) ==> d < |g.next| && EndsWithin(g, Some(d), n - 1)
  }

  lemma {:induction false} ShortPathsEnd(g: Chains, x: Place, n: nat)
    requires On(g, x) && AllShorter(g, x, n)
    requires forall y: Place :: On(g, y) ==> forall d :: d in Next(g, y) ==> d < |g.next|
    ensures EndsWithin(g, x, n)
    decreases n
  {
    EmptyIsShorter(g, x, n);
    forall d | d in Next(g, x)
      ensures d < |g.next| && EndsWithin(g, Some(d), n - 1)
    {
      ShorterAfterStep(g, x, d, n);
      ShortPathsEnd(g, Some(d), n - 1);
    }
  }

  /** Enough fuel for every path is enough for the walk. */
  lemma {:induction false} EndsWithinFuel(w: Records, issue: Issue, x: Place, fuel: nat)
    requires Valid(w) && On(ChainsOf(w, issue), x) && EndsWithin(ChainsOf(w, issue), x, fuel)
    ensures HasLatest(w, IssueOf(w, issue, x), fuel)
    decreases fuel
  {
    LatestAt(w, issue, x, fuel);
    var next := Next(ChainsOf(w, issue), x);
    forall d: nat | d in next
      ensures d < |w.decisions| && HasLatest(w, FromDecision(w, d), fuel - 1)
    {
      EndsWithinFuel(w, issue, Some(d), fuel - 1);
    }
    AllSuffice(w, next, fuel - 1);
  }

  predicate HasLatest(w: Records, issue: Issue, fuel: nat)
    requires Valid(w)
  {
    Latest(w, issue, fuel).Some?
  }

  lemma {:induction false} AllSuffice(w: Records, decisions: seq<nat>, fuel: nat)
    requires Valid(w) && forall k :: 0 <= k < |decisions| ==> decisions[k] < |w.decisions|
    requires forall d: nat :: d in decisions ==> d < |w.decisions| && HasLatest(w, FromDecision(w, d), fuel)
    ensures LatestOfAll(w, decisions, fuel).Some?
    decreases |decisions|
  {
    if decisions != [] {
      assert HasLatest(w, FromDecision(w, decisions[0]), fuel);
      AllSuffice(w, decisions[1..], fuel);
    }
  }

  /** The walk ends exactly when no chain from the issue runs in a circle. */
  lemma {:induction false} TerminatesIff(w: Records, issue: Issue)
    requires Valid(w)
    ensures Terminates(w, issue) <==> !HasCycle(ChainsOf(w, issue))
  {
    var g := ChainsOf(w, issue);
    if Terminates(w, issue) && HasCycle(g) {
      var fuel: nat :| Latest(w, issue, fuel).Some?;
      var p := LongerThan(g, fuel);
      PathsShorterThanFuel(w, issue, None, fuel, p);
    }
    if !HasCycle(g) {
      ShorterWithoutCycle(g);
      FollowersExist(w, issue);
      ShortPathsEnd(g, None, |g.next| + 1);
      EndsWithinFuel(w, issue, None, |g.next| + 1);
      assert Latest(w, issue, |g.next| + 1).Some?;
    }
  }

  // ---- Time ------------------------------------------------------------------------------------------

  /** A request comes after the decision it contests and before the decisions that answer it. */
  predicate Chronological(w: Records)
    requires Valid(w)
  {
    forall r :: 0 <= r < |w.requests| && w.requests[r].active ==>
      && (w.requests[r].contestedDecision.Some? && w.requests[r].contestedDecision.value < |w.decisions| ==>
            w.decisions[w.requests[r].contestedDecision.value].at <= w.requests[r].at)
      && forall k :: 0 <= k < |w.requests[r].decisions| ==> w.requests[r].at < w.decisions[w.requests[r].decisions[k]].at
  }

  lemma {:induction false} LaterDecision(w: Records, issue: Issue, d: nat, later: nat)
    requires Valid(w) && Chronological(w) && d < |w.decisions| && later in Next(ChainsOf(w, issue), Some(d))
    ensures later < |w.decisions| && w.decisions[d].at < w.decisions[later].at
  {
    var r := ContestedBy(w.requests, FromDecision(w, d));
    ContestedByIs(w.requests, FromDecision(w, d));
    assert later in w.requests[r].decisions;
  }

  lemma {:induction false} TimePasses(w: Records, issue: Issue, d: nat, p: seq<nat>)
    requires Valid(w) && Chronological(w) && p != [] && Path(ChainsOf(w, issue), Some(d), p)
    ensures w.decisions[d].at < w.decisions[p[|p| - 1]].at
    decreases |p|
  {
    assert Follows(ChainsOf(w, issue), Some(d), p, 0);
    LaterDecision(w, issue, d, p[0]);
    if |p| > 1 {
      PathSplit(ChainsOf(w, issue), Some(d), p, 1);
      TimePasses(w, issue, p[0], p[1..]);
    }
  }

  /** When decisions follow the requests they answer the walk ends. */
  lemma {:induction false} ChronologicalTerminates(w: Records, issue: Issue)
    requires Valid(w) && Chronological(w)
    ensures Terminates(w, issue)
  {
    var g := ChainsOf(w, issue);
    if HasCycle(g) {
      var p, q :| Path(g, None, p) && Round(g, End(None, p), q);
      TimePasses(w, issue, q[|q| - 1], q);
    }
    TerminatesIff(w, issue);
  }

  /** A decision that contests itself through its own request keeps the walk going forever. */
  lemma {:induction false} SelfAnsweringNeverEnds() returns (w: Records, issue: Issue)
    ensures Valid(w) && !Terminates(w, issue)
  {
    w := Records([RequestIssue(true, None, None, Some(0), [0], 1)], [DecisionIssue(None, 1)]);
    issue := FromDecision(w, 0);
    var g := ChainsOf(w, issue);
    assert NextDecisions(w, issue) == [0];
    OneStep(g, None, 0);
    OneStep(g, Some(0), 0);
    assert Path(g, None, [0]) && Round(g, End(None, [0]), [0]);
    TerminatesIff(w, issue);
  }

  // ---- What the walk returns ---------------------------------------------------------------------------

  /** The issue at the end of a chain from this place: no later decision follows it. */
  ghost predicate Leaf(w: Records, issue: Issue, x: Place, y: Issue)
    requires Valid(w)
  {
    exists p :: EndsAt(w, issue, x, y, p)
  }

  ghost predicate SomeLeaf(w: Records, issue: Issue, decisions: seq<nat>, y: Issue)
    requires Valid(w)
  {
    exists k :: 0 <= k < |decisions| && Leaf(w, issue, Some(decisions[k]), y)
  }

  predicate EndsAt(w: Records, issue: Issue, x: Place, y: Issue, p: seq<nat>)
    requires Valid(w)
  {
    var g := ChainsOf(w, issue);
    Path(g, x, p) && On(g, End(x, p)) && Next(g, End(x, p)) == [] && IssueOf(w, issue, End(x, p)) == y
  }

  /** The walk returns exactly the ends of the chains, and always at least one. */
  lemma {:induction false} LatestAreLeaves(w: Records, issue: Issue, fuel: nat)
    requires Valid(w) && Latest(w, issue, fuel).Some?
    ensures var latest := Latest(w, issue, fuel).value;
            latest != [] && forall y :: y in latest <==> Leaf(w, issue, None, y)
  {
    LeavesFrom(w, issue, None, fuel);
  }

  lemma {:induction false} LeavesFrom(w: Records, issue: Issue, x: Place, fuel: nat)
    requires Valid(w) && On(ChainsOf(w, issue), x) && Latest(w, IssueOf(w, issue, x), fuel).Some?
    ensures var latest := Latest(w, IssueOf(w, issue, x), fuel).value;
            latest != [] && forall y :: y in latest <==> Leaf(w, issue, x, y)
    decreases fuel, 0
  {
    LatestAt(w, issue, x, fuel);
    var next := Next(ChainsOf(w, issue), x);
    if next != [] {
      LeavesOfAll(w, issue, next, fuel - 1);
    }
    forall y
      ensures Leaf(w, issue, x, y) <==>
        if next == [] then y == IssueOf(w, issue, x) else SomeLeaf(w, issue, next, y)
    {
      LeafBelow(w, issue, x, y);
    }
  }

  lemma {:induction false} LeavesOfAll(w: Records, issue: Issue, decisions: seq<nat>, fuel: nat)
    requires Valid(w) && forall k :: 0 <= k < |decisions| ==> decisions[k] < |w.decisions|
    requires LatestOfAll(w, decisions, fuel).Some?
    ensures var latest := LatestOfAll(w, decisions, fuel).value;
            && (decisions != [] ==> latest != [])
            && forall y :: y in latest <==> SomeLeaf(w, issue, decisions, y)
    decreases fuel, 1, |decisions|
  {
    if decisions != [] {
      LeavesFrom(w, issue, Some(decisions[0]), fuel);
      LeavesOfAll(w, issue, decisions[1..], fuel);
      forall y
        ensures SomeLeaf(w, issue, decisions, y) <==>
        Leaf(w, issue, Some(decisions[0]), y) || SomeLeaf(w, issue, decisions[1..], y)
      {
        FirstOrRest(w, issue, decisions, y);
      }
    }
  }

  lemma {:induction false} FirstOrRest(w: Records, issue: Issue, decisions: seq<nat>, y: Issue)
    requires Valid(w) && decisions != []
    ensures SomeLeaf(w, issue, decisions, y) <==>
      Leaf(w, issue, Some(decisions[0]), y) || SomeLeaf(w, issue, decisions[1..], y)
  {
    if k :| 0 <= k < |decisions| && Leaf(w, issue, Some(decisions[k]), y) {
      assert k > 0 ==> decisions[1..][k - 1] == decisions[k];
    }
    if k :| 0 <= k < |decisions[1..]| && Leaf(w, issue, Some(decisions[1..][k]), y) {
      assert decisions[k + 1] == decisions[1..][k];
    }
  }

  lemma {:induction false} LeafBelow(w: Records, issue: Issue, x: Place, y: Issue)
    requires Valid(w) && On(ChainsOf(w, issue), x)
    ensures var next := Next(ChainsOf(w, issue), x);
            Leaf(w, issue, x, y) <==>
              if next == [] then y == IssueOf(w, issue, x)
              else SomeLeaf(w, issue, next, y)
  {
    var g := ChainsOf(w, issue);
    var next := Next(g, x);
    if p :| EndsAt(w, issue, x, y, p) {
      if p != [] {
        assert Follows(g, x, p, 0);
        PathSplit(g, x, p, 1);
        assert EndsAt(w, issue, Some(p[0]), y, p[1..]);
      }
    }
    if next == [] {
      assert EndsAt(w, issue, x, IssueOf(w, issue, x), []);
    } else if k :| 0 <= k < |next| && Leaf(w, issue, Some(next[k]), y) {
      var p :| EndsAt(w, issue, Some(next[k]), y, p);
      OneStep(g, x, next[k]);
      PathConcat(g, x, [next[k]], p);
      assert EndsAt(w, issue, x, y, [next[k]] + p);
    }
  }
}
