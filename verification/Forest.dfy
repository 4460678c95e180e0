/** Parent links between positions of a list: chains of ancestors, and when they end. */
module Forests {
  import opened Prelude

  /** Every link leads to a position of the list. */
  predicate Linked(links: seq<Option<nat>>) {
    forall i :: 0 <= i < |links| && links[i].Some? ==> links[i].value < |links|
  }

  /** The position reached by following `k` parent links. */
  function Ancestor(links: seq<Option<nat>>, i: nat, k: nat): (r: Option<nat>)
    requires i < |links| && Linked(links)
    ensures r.Some? ==> r.value < |links|
  {
    if k == 0 then Some(i)
    else
      var before := Ancestor(links, i, k - 1);
      if before.None? then None else links[before.value]
  }

  ghost predicate Under(links: seq<Option<nat>>, i: nat, node: nat)
    requires i < |links| && Linked(links)
  {
    exists k :: Ancestor(links, i, k) == Some(node)
  }

  /** The parent links of `i` end after `k` steps. */
  predicate EndsAfter(links: seq<Option<nat>>, i: nat, k: nat)
    requires i < |links| && Linked(links)
  {
    Ancestor(links, i, k).Some? && links[Ancestor(links, i, k).value].None?
  }

  /** Following parent links from `i` comes to an end. */
  ghost predicate Grounded(links: seq<Option<nat>>, i: nat)
    requires i < |links| && Linked(links)
  {
    exists k :: EndsAfter(links, i, k)
  }

  lemma {:induction false} AncestorStops(links: seq<Option<nat>>, i: nat, k: nat, m: nat)
    requires i < |links| && Linked(links) && EndsAfter(links, i, k) && k < m
    ensures Ancestor(links, i, m).None?
  {
    if m > k + 1 {
      AncestorStops(links, i, k, m - 1);
    }
  }

  lemma {:induction false} AncestorOfAncestor(links: seq<Option<nat>>, i: nat, k: nat, m: nat)
    requires i < |links| && Linked(links) && Ancestor(links, i, k).Some?
    ensures Ancestor(links, i, k + m) == Ancestor(links, Ancestor(links, i, k).value, m)
  {
    if m > 0 {
      AncestorOfAncestor(links, i, k, m - 1);
    }
  }

  lemma {:induction false} AncestorsBelow(links: seq<Option<nat>>, i: nat, k: nat, m: nat)
    requires i < |links| && Linked(links) && m <= k && Ancestor(links, i, k).Some?
    ensures Ancestor(links, i, m).Some?
  {
    if m < k {
      AncestorsBelow(links, i, k - 1, m);
    }
  }

  /** On a chain that ends no position comes twice. */
  lemma {:induction false} NoRepetition(links: seq<Option<nat>>, i: nat, k: nat, m: nat, n: nat)
    requires i < |links| && Linked(links) && EndsAfter(links, i, k) && m < n <= k
    ensures Ancestor(links, i, m) != Ancestor(links, i, n)
  {
    if Ancestor(links, i, m) == Ancestor(links, i, n) {
      AncestorsBelow(links, i, k, m);
      AncestorsBelow(links, i, k, n);
      AncestorOfAncestor(links, i, m, k - n);
      AncestorOfAncestor(links, i, n, k - n);
      AncestorStops(links, i, m + (k - n), k);
    }
  }

  ghost predicate OnChain(links: seq<Option<nat>>, i: nat, m: nat, x: nat)
    requires i < |links| && Linked(links)
  {
    exists j: nat :: j <= m && Ancestor(links, i, j) == Some(x)
  }

  lemma {:induction false} ChainSet(links: seq<Option<nat>>, i: nat, k: nat, m: nat) returns (chain: set<nat>)
    requires i < |links| && Linked(links) && EndsAfter(links, i, k) && m <= k
    ensures |chain| == m + 1
    ensures forall x :: x in chain ==> x < |links| && OnChain(links, i, m, x)
  {
    AncestorsBelow(links, i, k, m);
    var last := Ancestor(links, i, m).value;
    if m == 0 {
      chain := {last};
    } else {
      var shorter := ChainSet(links, i, k, m - 1);
      forall x | x in shorter
        ensures x != last && OnChain(links, i, m, x)
      {
        var j: nat :| j <= m - 1 && Ancestor(links, i, j) == Some(x);
        NoRepetition(links, i, k, j, m);
      }
      chain := shorter + {last};
    }
  }

  lemma {:induction false} AtMost(s: set<nat>, n: nat)
    requires forall x :: x in s ==> x < n
    ensures |s| <= n
  {
    if n == 0 {
      assert s == {};
    } else {
      AtMost(s - {n - 1}, n - 1);
      assert s - {n - 1} == s || s == (s - {n - 1}) + {n - 1};
    }
  }

  /** A chain that ends is shorter than the list. */
  lemma {:induction false} DepthBound(links: seq<Option<nat>>, i: nat, k: nat)
    requires i < |links| && Linked(links) && EndsAfter(links, i, k)
    ensures k < |links|
  {
    var chain := ChainSet(links, i, k, k);
    AtMost(chain, |links|);
  }

  // ---- Trees read downwards ------------------------------------------------------------------------

  /** The positions below `n` whose parent is `p`, in order. */
  function ChildrenOf(links: seq<Option<nat>>, p: nat, n: nat): seq<nat>
    requires n <= |links|
  {
    if n == 0 then [] else ChildrenOf(links, p, n - 1) + if links[n - 1] == Some(p) then [n - 1] else []
  }

  lemma {:induction false} IsChild(links: seq<Option<nat>>, p: nat, n: nat, i: nat)
    requires n <= |links|
    ensures i in ChildrenOf(links, p, n) <==> i < n && links[i] == Some(p)
  {
    if n > 0 {
      IsChild(links, p, n - 1, i);
    }
  }

  lemma {:induction false} ChildAt(links: seq<Option<nat>>, p: nat, n: nat, k: nat)
    requires n <= |links| && k < |ChildrenOf(links, p, n)|
    ensures var child := ChildrenOf(links, p, n)[k]; child < n && links[child] == Some(p)
  {
    IsChild(links, p, n, ChildrenOf(links, p, n)[k]);
  }

  /** The positions below `n` without a parent, in order. */
  function RootsOf(links: seq<Option<nat>>, n: nat): seq<nat>
    requires n <= |links|
  {
    if n == 0 then [] else RootsOf(links, n - 1) + if links[n - 1].None? then [n - 1] else []
  }

  lemma {:induction false} IsRoot(links: seq<Option<nat>>, n: nat, i: nat)
    requires n <= |links|
    ensures i in RootsOf(links, n) <==> i < n && links[i].None?
  {
    if n > 0 {
      IsRoot(links, n - 1, i);
    }
  }

  lemma {:induction false} RootAt(links: seq<Option<nat>>, n: nat, k: nat)
    requires n <= |links| && k < |RootsOf(links, n)|
    ensures var root := RootsOf(links, n)[k]; root < n && links[root].None?
  {
    IsRoot(links, n, RootsOf(links, n)[k]);
  }

  lemma {:induction false} RootsDiffer(links: seq<Option<nat>>, n: nat, k: nat, m: nat)
    requires n <= |links| && k < m < |RootsOf(links, n)|
    ensures RootsOf(links, n)[k] != RootsOf(links, n)[m]
  {
    if m < |RootsOf(links, n - 1)| {
      RootsDiffer(links, n - 1, k, m);
    } else {
      RootAt(links, n - 1, k);
    }
  }

  /** A position is under a node when it is the node or under one of its children. */
  lemma {:induction false} UnderChildren(links: seq<Option<nat>>, i: nat, node: nat)
    requires i < |links| && Linked(links) && node < |links|
    ensures Under(links, i, node) <==> i == node || exists c :: 0 <= c < |links| && links[c] == Some(node) && Under(links, i, c)
  {
    if Under(links, i, node) {
      var k: nat :| Ancestor(links, i, k) == Some(node);
      if k > 0 {
        var c := Ancestor(links, i, k - 1).value;
        assert links[c] == Some(node) && Under(links, i, c);
      }
    }
    if i == node {
      assert Ancestor(links, i, 0) == Some(node);
    }
    if c :| 0 <= c < |links| && links[c] == Some(node) && Under(links, i, c) {
      var k: nat :| Ancestor(links, i, k) == Some(c);
      assert Ancestor(links, i, k + 1) == Some(node);
    }
  }

  lemma {:induction false} ChildDepth(links: seq<Option<nat>>, node: nat, depth: nat, child: nat)
    requires Linked(links) && node < |links| && child < |links| && links[child] == Some(node)
    requires EndsAfter(links, node, depth)
    ensures EndsAfter(links, child, depth + 1)
  {
    assert Ancestor(links, child, 0) == Some(child);
    AncestorOfAncestor(links, child, 1, depth);
  }

  /** No position is under two roots, and a grounded one is under one. */
  lemma {:induction false} OneRoot(links: seq<Option<nat>>, i: nat, r: nat, s: nat)
    requires i < |links| && Linked(links) && r < |links| && s < |links| && links[r].None? && links[s].None?
    requires Under(links, i, r) && Under(links, i, s)
    ensures r == s && Grounded(links, i)
  {
    var k: nat :| Ancestor(links, i, k) == Some(r);
    var m: nat :| Ancestor(links, i, m) == Some(s);
    assert EndsAfter(links, i, k) && EndsAfter(links, i, m);
    if k < m {
      AncestorStops(links, i, k, m);
    } else if m < k {
      AncestorStops(links, i, m, k);
    }
  }

  /** Labels are those of the trees: each position carries the number of the root it is under. */
  ghost predicate Labelled(links: seq<Option<nat>>, labels: seq<Option<nat>>)
    requires Linked(links)
  {
    var roots := RootsOf(links, |links|);
    && |labels| == |links|
    && (forall i :: 0 <= i < |links| && labels[i].Some? ==> labels[i].value < |roots| && Under(links, i, roots[labels[i].value]))
    && forall i, s :: 0 <= i < |links| && 0 <= s < |roots| && Under(links, i, roots[s]) ==> labels[i] == Some(s)
  }

  lemma {:induction false} RootOver(links: seq<Option<nat>>, i: nat) returns (s: nat)
    requires Linked(links) && i < |links| && Grounded(links, i)
    ensures s < |RootsOf(links, |links|)| && Under(links, i, RootsOf(links, |links|)[s])
  {
    var k: nat :| EndsAfter(links, i, k);
    var r := Ancestor(links, i, k).value;
    IsRoot(links, |links|, r);
    s :| 0 <= s < |RootsOf(links, |links|)| && RootsOf(links, |links|)[s] == r;
  }

  /** A position has a label exactly when its chain of parents ends. */
  lemma {:induction false} LabelIffGrounded(links: seq<Option<nat>>, labels: seq<Option<nat>>, i: nat)
    requires Linked(links) && Labelled(links, labels) && i < |links|
    ensures labels[i].Some? <==> Grounded(links, i)
  {
    var roots := RootsOf(links, |links|);
    if labels[i].Some? {
      RootAt(links, |links|, labels[i].value);
      OneRoot(links, i, roots[labels[i].value], roots[labels[i].value]);
    }
    if Grounded(links, i) {
      var s := RootOver(links, i);
      assert labels[i] == Some(s);
    }
  }

  /** A position shares the label of its parent. */
  lemma {:induction false} LabelOfParent(links: seq<Option<nat>>, labels: seq<Option<nat>>, i: nat)
    requires Linked(links) && Labelled(links, labels) && i < |links| && links[i].Some?
    ensures labels[i] == labels[links[i].value]
  {
    var roots, p := RootsOf(links, |links|), links[i].value;
    if labels[i].Some? {
      RootAt(links, |links|, labels[i].value);
      UnderParent(links, i, roots[labels[i].value]);
    } else if labels[p].Some? {
      RootAt(links, |links|, labels[p].value);
      UnderParent(links, i, roots[labels[p].value]);
    }
  }

  lemma {:induction false} UnderParent(links: seq<Option<nat>>, i: nat, r: nat)
    requires Linked(links) && i < |links| && r < |links| && links[i].Some? && links[r].None?
    ensures Under(links, i, r) <==> Under(links, links[i].value, r)
  {
    assert Ancestor(links, i, 0) == Some(i);
    assert Ancestor(links, i, 1) == links[i];
    if k: nat :| Ancestor(links, i, k) == Some(r) {
      AncestorOfAncestor(links, i, 1, k - 1);
    }
    if k: nat :| Ancestor(links, links[i].value, k) == Some(r) {
      AncestorOfAncestor(links, i, 1, k);
    }
  }

  // ---- Roots -----------------------------------------------------------------------------------------

  /** The position without a parent reached in at most `steps` steps. */
  function RootFrom(links: seq<Option<nat>>, i: nat, steps: nat): (r: Option<nat>)
    requires i < |links| && Linked(links)
    ensures r.Some? ==> r.value < |links|
    decreases steps
  {
    if links[i].None? then Some(i)
    else if steps == 0 then None
    else RootFrom(links, links[i].value, steps - 1)
  }

  /** The root above a position; none when its parents run in a circle. */
  function RootOf(links: seq<Option<nat>>, i: nat): (r: Option<nat>)
    requires i < |links| && Linked(links)
    ensures r.Some? ==> r.value < |links|
  {
    RootFrom(links, i, |links|)
  }

  lemma {:induction false} RootFromEnd(links: seq<Option<nat>>, i: nat, k: nat, steps: nat)
    requires i < |links| && Linked(links) && EndsAfter(links, i, k) && k <= steps
    ensures RootFrom(links, i, steps) == Ancestor(links, i, k)
    decreases k
  {
    assert Ancestor(links, i, 0) == Some(i);
    if k > 0 {
      AncestorsBelow(links, i, k, 1);
      AncestorOfAncestor(links, i, 1, k - 1);
      RootFromEnd(links, links[i].value, k - 1, steps - 1);
    }
  }

  lemma {:induction false} RootFromAbove(links: seq<Option<nat>>, i: nat, steps: nat) returns (k: nat)
    requires i < |links| && Linked(links) && RootFrom(links, i, steps).Some?
    ensures EndsAfter(links, i, k) && Ancestor(links, i, k) == RootFrom(links, i, steps)
    decreases steps
  {
    assert Ancestor(links, i, 0) == Some(i);
    if links[i].None? {
      k := 0;
    } else {
      var rest := RootFromAbove(links, links[i].value, steps - 1);
      AncestorOfAncestor(links, i, 1, rest);
      k := rest + 1;
    }
  }

  /** Whether a chain of parents ends can be decided: by looking for its root. */
  lemma {:induction false} RootOfIff(links: seq<Option<nat>>, i: nat)
    requires i < |links| && Linked(links)
    ensures RootOf(links, i).Some? <==> Grounded(links, i)
    ensures RootOf(links, i).Some? ==> links[RootOf(links, i).value].None? && Under(links, i, RootOf(links, i).value)
  {
    if k: nat :| EndsAfter(links, i, k) {
      DepthBound(links, i, k);
      RootFromEnd(links, i, k, |links|);
    }
    if RootOf(links, i).Some? {
      var k := RootFromAbove(links, i, |links|);
    }
  }

  /** A label is the number of the root above. */
  lemma {:induction false} LabelIsRoot(links: seq<Option<nat>>, labels: seq<Option<nat>>, i: nat)
    requires Linked(links) && Labelled(links, labels) && i < |links|
    ensures labels[i].Some? <==> RootOf(links, i).Some?
    ensures labels[i].Some? ==> labels[i].value < |RootsOf(links, |links|)|
    ensures labels[i].Some? ==> RootsOf(links, |links|)[labels[i].value] == RootOf(links, i).value
  {
    LabelIffGrounded(links, labels, i);
    RootOfIff(links, i);
    if labels[i].Some? {
      RootAt(links, |links|, labels[i].value);
      OneRoot(links, i, RootsOf(links, |links|)[labels[i].value], RootOf(links, i).value);
    }
  }

  /** Two positions carry one label exactly when they are under one root, or both under none. */
  lemma {:induction false} LabelsAgreeIff(links: seq<Option<nat>>, labels: seq<Option<nat>>, i: nat, j: nat)
    requires Linked(links) && Labelled(links, labels) && i < |links| && j < |links|
    ensures labels[i] == labels[j] <==> RootOf(links, i) == RootOf(links, j)
  {
    LabelIsRoot(links, labels, i);
    LabelIsRoot(links, labels, j);
    RootOfIff(links, j);
    if RootOf(links, i) == RootOf(links, j) && labels[i].Some? {
      assert Under(links, j, RootsOf(links, |links|)[labels[i].value]);
    }
  }

  /** Each tree number is the label of its root. */
  lemma {:induction false} LabelOfRoot(links: seq<Option<nat>>, labels: seq<Option<nat>>, s: nat)
    requires Linked(links) && Labelled(links, labels) && s < |RootsOf(links, |links|)|
    ensures RootsOf(links, |links|)[s] < |links| && labels[RootsOf(links, |links|)[s]] == Some(s)
  {
    RootAt(links, |links|, s);
    var root := RootsOf(links, |links|)[s];
    assert Ancestor(links, root, 0) == Some(root);
    assert Under(links, root, RootsOf(links, |links|)[s]);
  }

  ghost predicate UnderSome(links: seq<Option<nat>>, i: nat, nodes: seq<nat>)
    requires i < |links| && Linked(links)
  {
    exists c :: c in nodes && Under(links, i, c)
  }

  lemma {:induction false} UnderIffBelow(links: seq<Option<nat>>, node: nat, i: nat)
    requires i < |links| && Linked(links) && node < |links|
    ensures Under(links, i, node) <==> i == node || UnderSome(links, i, ChildrenOf(links, node, |links|))
  {
    UnderChildren(links, i, node);
    forall c: nat {
      IsChild(links, node, |links|, c);
    }
  }

  lemma {:induction false} UnderOneMore(links: seq<Option<nat>>, i: nat, nodes: seq<nat>, m: nat)
    requires i < |links| && Linked(links) && m < |nodes|
    ensures UnderSome(links, i, nodes[..m + 1]) <==> UnderSome(links, i, nodes[..m]) || Under(links, i, nodes[m])
  {
    assert nodes[..m + 1] == nodes[..m] + [nodes[m]];
  }

  /** The nodes of the trees: each knows its children and, once labelled, the number of its tree. */
  class Trees {
    ghost const links: seq<Option<nat>>
    var children: seq<seq<nat>>
    var roots: seq<nat>
    var seriesId: seq<Option<nat>>

    ghost predicate Valid()
      reads this
    {
      && Linked(links) && |children| == |seriesId| == |links|
      && roots == RootsOf(links, |links|)
      && forall i :: 0 <= i < |links| ==> children[i] == ChildrenOf(links, i, |links|)
    }

    /** Inverts the parent links, node by node. */
    constructor (parents: seq<Option<nat>>)
      requires Linked(parents)
      ensures links == parents && Valid()
      ensures forall i :: 0 <= i < |parents| ==> seriesId[i] == None
    {
      links := parents;
      seriesId := seq(|parents|, _ => None);
      children := seq(|parents|, _ => []);
      roots := [];
      new;
      for i := 0 to |parents|
        invariant seriesId == seq(|parents|, _ => None)
        invariant |children| == |parents| && roots == RootsOf(parents, i)
        invariant forall p :: 0 <= p < |parents| ==> children[p] == ChildrenOf(parents, p, i)
      {
        if parents[i].None? {
          roots := roots + [i];
        } else {
          var p := parents[i].value;
          children := children[p := children[p] + [i]];
        }
      }
    }

    /** The labels once `node` and everything under it carry `sid`. */
    ghost predicate LabelledUnder(node: nat, sid: nat, before: seq<Option<nat>>)
      requires Valid() && |before| == |links|
      reads this
    {
      forall i :: 0 <= i < |links| ==> seriesId[i] == if Under(links, i, node) then Some(sid) else before[i]
    }

    /** Labels a node and everything under it. It ends because the chain of parents of every node under
        a root ends, and such a chain is shorter than the list. */
    method Traverse(node: nat, sid: nat, ghost depth: nat)
      requires Valid() && node < |links| && EndsAfter(links, node, depth)
      modifies this`seriesId
      ensures Valid() && LabelledUnder(node, sid, old(seriesId))
      decreases |links| - depth
    {
      ghost var before := seriesId;
      DepthBound(links, node, depth);
      seriesId := seriesId[node := Some(sid)];
      var m := 0;
      while m < |children[node]|
        invariant Valid() && 0 <= m <= |children[node]|
        invariant forall i :: 0 <= i < |links| ==>
          seriesId[i] == if i == node || UnderSome(links, i, children[node][..m]) then Some(sid) else before[i]
      {
        var child := children[node][m];
        ChildAt(links, node, |links|, m);
        ChildDepth(links, node, depth, child);
        DepthBound(links, child, depth + 1);
        Traverse(child, sid, depth + 1);
        forall i | 0 <= i < |links| {
          UnderOneMore(links, i, children[node], m);
        }
        m := m + 1;
      }
      assert children[node][..m] == children[node];
      forall i | 0 <= i < |links| {
        UnderIffBelow(links, node, i);
      }
    }

    /** The labels after the first `n` trees. */
    ghost predicate LabelledUpTo(n: nat)
      requires Valid() && n <= |roots|
      reads this
    {
      && (forall i :: 0 <= i < |links| && seriesId[i].Some? ==>
            seriesId[i].value < n && Under(links, i, roots[seriesId[i].value]))
      && forall i, s :: 0 <= i < |links| && 0 <= s < n && Under(links, i, roots[s]) ==> seriesId[i] == Some(s)
    }

    method LabelTree(sid: nat)
      requires Valid() && sid < |roots| && LabelledUpTo(sid)
      modifies this`seriesId
      ensures Valid() && LabelledUpTo(sid + 1)
    {
      RootAt(links, |links|, sid);
      assert Ancestor(links, roots[sid], 0) == Some(roots[sid]);
      forall i, s | 0 <= i < |links| && 0 <= s < sid && Under(links, i, roots[s]) && Under(links, i, roots[sid])
        ensures false
      {
        RootAt(links, |links|, s);
        RootsDiffer(links, |links|, s, sid);
        OneRoot(links, i, roots[s], roots[sid]);
      }
      Traverse(roots[sid], sid, 0);
    }

    method LabelAll()
      requires Valid() && forall i :: 0 <= i < |links| ==> seriesId[i] == None
      modifies this`seriesId
      ensures Valid() && Labelled(links, seriesId)
    {
      for sid := 0 to |roots|
        invariant Valid() && LabelledUpTo(sid)
      {
        LabelTree(sid);
      }
    }
  }
}
