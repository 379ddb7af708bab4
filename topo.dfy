/**
 * Reachability over the node arena and the depth-first, post-order
 * topological sort `build_topo` that the backward pass runs first, together
 * with the linear `is_visited` scan it deduplicates with.
 */
module Topo {
  import opened Values

  /** The nodes reachable from v through `children`, v included. */
  ghost function Reach(g: seq<Node>, v: nat): set<nat>
    requires WellFormed(g) && v < |g|
    decreases v, |g[v].children| + 1
  {
    {v} + ReachChildren(g, v, |g[v].children|)
  }

  /** The nodes reachable from the first k operands of v. */
  ghost function ReachChildren(g: seq<Node>, v: nat, k: nat): set<nat>
    requires WellFormed(g) && v < |g| && k <= |g[v].children|
    decreases v, k
  {
    if k == 0 then {}
    else
      ReachChildren(g, v, k - 1) + Reach(g, g[v].children[k - 1])
  }

  /** The elements of a sequence, as a set. */
  ghost function Elems(s: seq<nat>): set<nat>
  {
    set x | x in s
  }

  /** Every node of `order` is in the arena, occurs once, and each of its
      operands occurs at an earlier position: operands come before their
      consumers. */
  ghost predicate Ordered(g: seq<Node>, order: seq<nat>)
    decreases |order|
  {
    |order| == 0 ||
    (var last, init := order[|order| - 1], order[..|order| - 1];
     && Ordered(g, init)
     && last < |g|
     && last !in init
     && forall k | 0 <= k < |g[last].children| :: g[last].children[k] in init)
  }

  /** An operand-first order lists no node twice. */
  lemma {:induction false} OrderedDistinct(g: seq<Node>, s: seq<nat>, i: nat, j: nat)
    requires Ordered(g, s) && i < j < |s|
    ensures s[i] != s[j]
    decreases |s|
  {
    var init := s[..|s| - 1];
    if j < |s| - 1 {
      OrderedDistinct(g, init, i, j);
    } else {
      assert s[i] == init[i];
    }
  }

  /** Position i of an operand-first order splits its suffix into T[i] and
      the nodes after it, none of which is T[i]. */
  lemma SuffixSplit(g: seq<Node>, T: seq<nat>, i: nat)
    requires Ordered(g, T) && i < |T|
    ensures T[i] !in Elems(T[i + 1..])
    ensures Elems(T[i..]) == Elems(T[i + 1..]) + {T[i]}
  {
    if T[i] in Elems(T[i + 1..]) {
      var j :| 0 <= j < |T[i + 1..]| && T[i + 1..][j] == T[i];
      OrderedDistinct(g, T, i, i + 1 + j);
      assert false;
    }
    assert T[i..] == [T[i]] + T[i + 1..];
  }

  lemma {:induction false} OrderedAt(g: seq<Node>, order: seq<nat>, i: nat)
    requires Ordered(g, order) && i < |order|
    ensures order[i] < |g|
    ensures forall k | 0 <= k < |g[order[i]].children| :: g[order[i]].children[k] in order[..i]
    decreases |order|
  {
    var init := order[..|order| - 1];
    if i < |order| - 1 {
      OrderedAt(g, init, i);
      assert init[..i] == order[..i];
    } else {
      assert init == order[..i];
    }
  }

  lemma {:induction false} ReachChildrenBelow(g: seq<Node>, v: nat, k: nat, x: nat)
    requires WellFormed(g) && v < |g| && k <= |g[v].children|
    requires x in ReachChildren(g, v, k)
    ensures x < v
    decreases v, k
  {
    if x in ReachChildren(g, v, k - 1) {
      ReachChildrenBelow(g, v, k - 1, x);
    } else {
      ReachBelow(g, g[v].children[k - 1], x);
    }
  }

  /** Everything reachable from v sits at or below v in the arena. */
  lemma {:induction false} ReachBelow(g: seq<Node>, v: nat, x: nat)
    requires WellFormed(g) && v < |g|
    requires x in Reach(g, v)
    ensures x <= v
    decreases v, |g[v].children| + 1
  {
    if x != v {
      ReachChildrenBelow(g, v, |g[v].children|, x);
    }
  }

  lemma {:induction false} ChildInReachChildren(g: seq<Node>, v: nat, k: nat, j: nat)
    requires WellFormed(g) && v < |g| && j < k <= |g[v].children|
    ensures g[v].children[j] in ReachChildren(g, v, k)
  {
    if j < k - 1 {
      ChildInReachChildren(g, v, k - 1, j);
    }
  }

  lemma {:induction false} ReachChildrenFrom(g: seq<Node>, v: nat, k: nat, x: nat)
    requires WellFormed(g) && v < |g| && k <= |g[v].children|
    requires x in ReachChildren(g, v, k)
    ensures exists j :: 0 <= j < k && x in Reach(g, g[v].children[j])
  {
    if x !in Reach(g, g[v].children[k - 1]) {
      ReachChildrenFrom(g, v, k - 1, x);
    }
  }

  /** Reachability is closed under taking operands. */
  lemma {:induction false} ReachClosed(g: seq<Node>, v: nat, z: nat, c: nat)
    requires WellFormed(g) && v < |g| && z < |g|
    requires z in Reach(g, v) && c in g[z].children
    ensures c in Reach(g, v)
    decreases v
  {
    var j :| 0 <= j < |g[z].children| && g[z].children[j] == c;
    if z == v {
      ChildInReachChildren(g, v, |g[v].children|, j);
    } else {
      ReachChildrenFrom(g, v, |g[v].children|, z);
      var i :| 0 <= i < |g[v].children| && z in Reach(g, g[v].children[i]);
      ReachClosed(g, g[v].children[i], z, c);
      ReachInChild(g, v, i, c);
    }
  }

  lemma {:induction false} ReachInChild(g: seq<Node>, v: nat, i: nat, x: nat)
    requires WellFormed(g) && v < |g| && i < |g[v].children|
    requires x in Reach(g, g[v].children[i])
    ensures x in Reach(g, v)
  {
    ReachChildrenMono(g, v, i + 1, |g[v].children|);
  }

  lemma {:induction false} ReachChildrenMono(g: seq<Node>, v: nat, k: nat, m: nat)
    requires WellFormed(g) && v < |g| && k <= m <= |g[v].children|
    ensures ReachChildren(g, v, k) <= ReachChildren(g, v, m)
    decreases m - k
  {
    if k < m {
      ReachChildrenMono(g, v, k, m - 1);
    }
  }

  /** A set closed under operands that holds v holds all that v reaches. */
  lemma {:induction false} ClosedHoldsReach(g: seq<Node>, s: set<nat>, v: nat)
    requires WellFormed(g) && v < |g| && v in s
    requires forall z, k | z in s && 0 <= z < |g| && 0 <= k < |g[z].children| :: g[z].children[k] in s
    ensures Reach(g, v) <= s
    decreases v
  {
    forall x | x in Reach(g, v)
      ensures x in s
    {
      if x != v {
        ReachChildrenFrom(g, v, |g[v].children|, x);
        var j :| 0 <= j < |g[v].children| && x in Reach(g, g[v].children[j]);
        ClosedHoldsReach(g, s, g[v].children[j]);
      }
    }
  }

  /** The nodes of an operand-first order are closed under operands. */
  lemma OrderedClosed(g: seq<Node>, order: seq<nat>)
    requires Ordered(g, order)
    ensures forall z, k | z in Elems(order) && 0 <= z < |g| && 0 <= k < |g[z].children| ::
              g[z].children[k] in Elems(order)
  {
    forall z, k | z in Elems(order) && 0 <= z < |g| && 0 <= k < |g[z].children|
      ensures g[z].children[k] in Elems(order)
    {
      var i :| 0 <= i < |order| && order[i] == z;
      OrderedAt(g, order, i);
      assert g[order[i]].children[k] in order[..i];
    }
  }

  /** A node already visited but no longer on the descent is in `topo`,
      and so is everything it reaches. */
  lemma SeenCovered(g: seq<Node>, v: nat, topo: seq<nat>, visited: seq<nat>)
    requires WellFormed(g) && v < |g| && Ordered(g, topo)
    requires Elems(topo) <= Elems(visited)
    requires forall x | x in visited && x !in topo :: v < x
    requires v in visited
    ensures Reach(g, v) <= Elems(topo)
  {
    assert v in Elems(topo);
    OrderedClosed(g, topo);
    ClosedHoldsReach(g, Elems(topo), v);
  }

  /** Before the descent into operand i of v, every node on the descent
      (visited, not yet sorted) lies above that operand. */
  lemma DescentAbove(g: seq<Node>, v: nat, i: nat, topo: seq<nat>, visited: seq<nat>,
                     t: seq<nat>, vis: seq<nat>)
    requires WellFormed(g) && v < |g| && i < |g[v].children|
    requires forall x | x in visited && x !in topo :: v < x
    requires Elems(t) == Elems(topo) + ReachChildren(g, v, i)
    requires Elems(vis) == Elems(visited) + {v} + ReachChildren(g, v, i)
    ensures forall x | x in vis && x !in t :: g[v].children[i] < x
  {
    forall x | x in vis && x !in t
      ensures g[v].children[i] < x
    {
      assert x in Elems(vis) && x !in Elems(t);
      if x != v {
        assert x in Elems(visited) && x !in Elems(topo);
      }
    }
  }

  /** Once all operands of v are sorted, appending v completes the sort of
      everything v reaches. */
  lemma FinishVisit(g: seq<Node>, v: nat, topo: seq<nat>, visited: seq<nat>, t: seq<nat>)
    requires WellFormed(g) && v < |g| && v !in visited
    requires Elems(topo) <= Elems(visited)
    requires Ordered(g, t)
    requires Elems(t) == Elems(topo) + ReachChildren(g, v, |g[v].children|)
    ensures Ordered(g, t + [v])
    ensures Elems(t + [v]) == Elems(topo) + Reach(g, v)
  {
    var n := |g[v].children|;
    if v in ReachChildren(g, v, n) {
      ReachChildrenBelow(g, v, n, v);
      assert false;
    }
    assert v !in Elems(visited);
    assert v !in Elems(t);
    forall k | 0 <= k < n
      ensures g[v].children[k] in t
    {
      ChildInReachChildren(g, v, n, k);
      assert g[v].children[k] in Elems(t);
    }
    AppendOrdered(g, t, v);
    assert Elems(t + [v]) == Elems(t) + {v};
  }

  /** `is_visited`: a linear scan of the visited list, true exactly when v is
      in it. */
  method IsVisited(v: nat, visited: seq<nat>) returns (found: bool)
    ensures found <==> v in visited
  {
    var i := 0;
    while i < |visited|
      invariant 0 <= i <= |visited|
      invariant v !in visited[..i]
    {
      if visited[i] == v {
        return true;
      }
      i := i + 1;
    }
    assert visited[..i] == visited;
    return false;
  }

  /** Appending a node whose operands are all present keeps an order
      operand-first. */
  lemma AppendOrdered(g: seq<Node>, order: seq<nat>, v: nat)
    requires WellFormed(g) && v < |g| && Ordered(g, order) && v !in order
    requires forall k | 0 <= k < |g[v].children| :: g[v].children[k] in order
    ensures Ordered(g, order + [v])
  {
    assert (order + [v])[..|order|] == order;
  }

  /** `build_topo`: depth-first, post-order.  A node already visited is
      skipped; otherwise it is marked visited, its operands are sorted in
      order, and it is appended to `topo`.  On entry, the visited nodes not
      yet in `topo` are the ones on the current descent, all above v.  The
      caller's lists are only appended to. */
  method BuildTopo(g: seq<Node>, v: nat, topo: seq<nat>, visited: seq<nat>)
    returns (topo': seq<nat>, visited': seq<nat>)
    requires WellFormed(g) && v < |g|
    requires Ordered(g, topo)
    requires Elems(topo) <= Elems(visited)
    requires forall x | x in visited && x !in topo :: v < x
    ensures Ordered(g, topo')
    ensures Elems(topo') == Elems(topo) + Reach(g, v)
    ensures Elems(visited') == Elems(visited) + Reach(g, v)
    ensures |visited'| - |visited| == |topo'| - |topo|
    ensures v !in visited ==> |topo'| > 0 && topo'[|topo'| - 1] == v
    ensures topo <= topo' && visited <= visited'
    decreases v, 1
  {
    var seen := IsVisited(v, visited);
    if seen {
      SeenCovered(g, v, topo, visited);
      return topo, visited;
    }
    topo', visited' := VisitOperands(g, v, topo, visited);
    FinishVisit(g, v, topo, visited, topo');
    topo' := topo' + [v];
  }

  /** Part-way through the operands of v: v has been marked visited, the
      first i operands have been sorted into t, vis holds the visited nodes,
      and both lists still begin with the caller's. */
  ghost predicate OperandsSorted(g: seq<Node>, v: nat, i: nat, topo: seq<nat>, visited: seq<nat>,
                                 t: seq<nat>, vis: seq<nat>)
    requires WellFormed(g) && v < |g| && i <= |g[v].children|
  {
    && Ordered(g, t)
    && Elems(t) == Elems(topo) + ReachChildren(g, v, i)
    && Elems(vis) == Elems(visited) + {v} + ReachChildren(g, v, i)
    && |vis| - |visited| == |t| - |topo| + 1
    && topo <= t && visited <= vis
  }

  /** Sorting operand i into the lists moves the loop on by one operand. */
  lemma OperandStep(g: seq<Node>, v: nat, i: nat, topo: seq<nat>, visited: seq<nat>,
                    t: seq<nat>, vis: seq<nat>, t': seq<nat>, vis': seq<nat>)
    requires WellFormed(g) && v < |g| && i < |g[v].children|
    requires OperandsSorted(g, v, i, topo, visited, t, vis)
    requires Ordered(g, t')
    requires Elems(t') == Elems(t) + Reach(g, g[v].children[i])
    requires Elems(vis') == Elems(vis) + Reach(g, g[v].children[i])
    requires |vis'| - |vis| == |t'| - |t|
    requires t <= t' && vis <= vis'
    ensures OperandsSorted(g, v, i + 1, topo, visited, t', vis')
  {
    assert ReachChildren(g, v, i + 1) == ReachChildren(g, v, i) + Reach(g, g[v].children[i]);
  }

  /** The loop of `build_topo` over the operands of v, once v is marked
      visited: each operand is sorted in turn into the same lists. */
  method VisitOperands(g: seq<Node>, v: nat, topo: seq<nat>, visited: seq<nat>)
    returns (topo': seq<nat>, visited': seq<nat>)
    requires WellFormed(g) && v < |g| && v !in visited
    requires Ordered(g, topo)
    requires Elems(topo) <= Elems(visited)
    requires forall x | x in visited && x !in topo :: v < x
    ensures OperandsSorted(g, v, |g[v].children|, topo, visited, topo', visited')
    decreases v, 0
  {
    var n := |g[v].children|;
    topo', visited' := topo, visited + [v];
    assert Elems(visited') == Elems(visited) + {v};
    var i := 0;
    while i < n
      invariant 0 <= i <= n
      invariant OperandsSorted(g, v, i, topo, visited, topo', visited')
    {
      DescentAbove(g, v, i, topo, visited, topo', visited');
      ghost var t, vis := topo', visited';
      topo', visited' := BuildTopo(g, g[v].children[i], topo', visited');
      OperandStep(g, v, i, topo, visited, t, vis, topo', visited');
      i := i + 1;
    }
  }
}
