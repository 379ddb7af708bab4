/**
 * What a backward pass computes.
 *
 * A pass from `root` starts from the gradients `grad0` the nodes hold, sets
 * the root's gradient to 1, and fires each reachable node's rule once, every
 * consumer before its operands.  A rule adds, into each operand, the local
 * derivative times the consumer's gradient.  So when the pass ends, a node x
 * other than the root holds what it held before plus, for every reachable
 * consumer y, ChildWeight(y, x) times y's final gradient (`Adjoint`).
 * Gradients are accumulated, never reset, except the root's.
 */
module Backprop {
  import opened Values
  import opened Topo

  /** The rule of node y has fired on gradients `before`, giving `after`:
      each node's gradient grew by y's weight on it times y's gradient, and
      nothing else changed. */
  ghost predicate Fired(g: seq<Node>, before: seq<real>, after: seq<real>, y: nat)
    requires WellFormed(g) && |before| == |g|
  {
    && y < |g|
    && |after| == |before|
    && forall x | 0 <= x < |before| :: after[x] == before[x] + ChildWeight(g, y, x) * before[y]
  }

  /** The gradient a node starts the rule phase with: 1 for the root (set,
      not accumulated), its earlier gradient for every other node. */
  ghost function Seed(grad0: seq<real>, root: nat, x: nat): real
    requires x < |grad0|
  {
    if x == root then 1.0 else grad0[x]
  }

  /** The contributions node x receives from the consumers y in S with
      lo <= y <= root, each consumer contributing its weight on x times its
      own final gradient. */
  ghost function ConsumerSum(g: seq<Node>, grad0: seq<real>, root: nat, x: nat, lo: nat,
                             S: set<nat>): real
    requires WellFormed(g) && root < |g| && |grad0| == |g| && x < lo
    decreases root + 1 - x, root + 1 - lo
  {
    if lo > root then 0.0
    else
      (if lo in S then ChildWeight(g, lo, x) * Adjoint(g, grad0, root, lo) else 0.0)
      + ConsumerSum(g, grad0, root, x, lo + 1, S)
  }

  /** The gradient of node x once `backward(root)` has finished, for a graph
      whose gradients were `grad0` before the call. */
  ghost function Adjoint(g: seq<Node>, grad0: seq<real>, root: nat, x: nat): real
    requires WellFormed(g) && root < |g| && |grad0| == |g| && x < |g|
    decreases root + 1 - x, root + 2 - x
  {
    if x > root then grad0[x]
    else Seed(grad0, root, x) + ConsumerSum(g, grad0, root, x, x + 1, Reach(g, root))
  }

  /** The gradient of node x part-way through the rule phase, once the
      consumers in P have fired. */
  ghost function Partway(g: seq<Node>, grad0: seq<real>, root: nat, P: set<nat>, x: nat): real
    requires WellFormed(g) && root < |g| && |grad0| == |g| && x < |g|
  {
    if x > root then grad0[x]
    else Seed(grad0, root, x) + ConsumerSum(g, grad0, root, x, x + 1, P)
  }

  /** No consumer has fired: nothing has been contributed. */
  lemma {:induction false} SumEmpty(g: seq<Node>, grad0: seq<real>, root: nat, x: nat, lo: nat)
    requires WellFormed(g) && root < |g| && |grad0| == |g| && x < lo
    ensures ConsumerSum(g, grad0, root, x, lo, {}) == 0.0
    decreases root + 1 - lo
  {
    if lo <= root {
      SumEmpty(g, grad0, root, x, lo + 1);
    }
  }

  /** Firing one more consumer y adds exactly y's contribution, when y is in
      the summed range. */
  lemma {:induction false} SumInsert(g: seq<Node>, grad0: seq<real>, root: nat, x: nat, lo: nat,
                                     P: set<nat>, y: nat)
    requires WellFormed(g) && root < |g| && |grad0| == |g| && x < lo
    requires y !in P && lo <= y <= root
    ensures ConsumerSum(g, grad0, root, x, lo, P + {y})
         == ConsumerSum(g, grad0, root, x, lo, P) + ChildWeight(g, y, x) * Adjoint(g, grad0, root, y)
    decreases root + 1 - lo
  {
    if lo < y {
      SumInsert(g, grad0, root, x, lo + 1, P, y);
    } else {
      assert ConsumerSum(g, grad0, root, x, lo, P) == 0.0 + ConsumerSum(g, grad0, root, x, lo + 1, P);
      SumAgree(g, grad0, root, x, lo + 1, P, P + {y});
    }
  }

  /** Two sets of fired consumers give the same sum when every node on which
      they differ contributes nothing to x. */
  lemma {:induction false} SumAgree(g: seq<Node>, grad0: seq<real>, root: nat, x: nat, lo: nat,
                                    P: set<nat>, Q: set<nat>)
    requires WellFormed(g) && root < |g| && |grad0| == |g| && x < lo
    requires P <= Q
    requires forall z | lo <= z <= root && z in Q && z !in P :: ChildWeight(g, z, x) == 0.0
    ensures ConsumerSum(g, grad0, root, x, lo, P) == ConsumerSum(g, grad0, root, x, lo, Q)
    decreases root + 1 - lo
  {
    if lo <= root {
      SumAgree(g, grad0, root, x, lo + 1, P, Q);
    }
  }

  /** Before any rule fires, every node holds its seed. */
  lemma PartwayStart(g: seq<Node>, grad0: seq<real>, root: nat)
    requires WellFormed(g) && root < |g| && |grad0| == |g|
    ensures forall x | 0 <= x < |g| :: Partway(g, grad0, root, {}, x) == grad0[root := 1.0][x]
  {
    forall x | 0 <= x < |g|
      ensures Partway(g, grad0, root, {}, x) == grad0[root := 1.0][x]
    {
      if x <= root {
        SumEmpty(g, grad0, root, x, x + 1);
      }
    }
  }

  /** When every reachable consumer has fired, each node holds its final
      gradient. */
  lemma PartwayDone(g: seq<Node>, grad0: seq<real>, root: nat, x: nat)
    requires WellFormed(g) && root < |g| && |grad0| == |g| && x < |g|
    ensures Partway(g, grad0, root, Reach(g, root), x) == Adjoint(g, grad0, root, x)
  {
  }

  /** In an operand-first order of the nodes reachable from the root, every
      reachable consumer of T[i] comes after position i. */
  lemma ConsumersLater(g: seq<Node>, root: nat, T: seq<nat>, i: nat, z: nat)
    requires WellFormed(g) && root < |g|
    requires Ordered(g, T) && Elems(T) == Reach(g, root) && i < |T|
    requires z in Reach(g, root) && z <= root && z !in Elems(T[i + 1..])
    ensures ChildWeight(g, z, T[i]) == 0.0
  {
    var y := T[i];
    assert z in Elems(T);
    var j :| 0 <= j < |T| && T[j] == z;
    if y in g[z].children {
      var k :| 0 <= k < |g[z].children| && g[z].children[k] == y;
      OrderedAt(g, T, j);
      assert y in T[..j];
      var m :| 0 <= m < j && T[m] == y;
      if m < i {
        OrderedDistinct(g, T, m, i);
        assert false;
      } else if m > i {
        assert false;
      } else {
        assert false;
      }
    }
    WeightOnlyToChildren(g, z, y);
  }

  /** When T[i] fires, its gradient is already final: all its reachable
      consumers have fired. */
  lemma ReadyToFire(g: seq<Node>, grad0: seq<real>, root: nat, T: seq<nat>, i: nat)
    requires WellFormed(g) && root < |g| && |grad0| == |g|
    requires Ordered(g, T) && Elems(T) == Reach(g, root) && i < |T|
    ensures T[i] <= root
    ensures Partway(g, grad0, root, Elems(T[i + 1..]), T[i]) == Adjoint(g, grad0, root, T[i])
  {
    var y := T[i];
    var P := Elems(T[i + 1..]);
    assert y in Elems(T);
    ReachBelow(g, root, y);
    assert P <= Elems(T) by {
      forall z | z in P
        ensures z in Elems(T)
      {
        var j :| 0 <= j < |T[i + 1..]| && T[i + 1..][j] == z;
        assert T[i + 1 + j] == z;
      }
    }
    forall z | y + 1 <= z <= root && z in Reach(g, root) && z !in P
      ensures ChildWeight(g, z, y) == 0.0
    {
      ConsumersLater(g, root, T, i, z);
    }
    SumAgree(g, grad0, root, y, y + 1, P, Reach(g, root));
  }

  /** Firing T[i], the next node in reverse order, moves the pass one step
      on: the gradients go from "the consumers after i have fired" to "the
      consumers from i on have fired". */
  lemma BackwardStep(g: seq<Node>, grad0: seq<real>, root: nat, T: seq<nat>, i: nat,
                     before: seq<real>, after: seq<real>)
    requires WellFormed(g) && root < |g| && |grad0| == |g|
    requires Ordered(g, T) && Elems(T) == Reach(g, root) && i < |T|
    requires |before| == |g|
    requires forall x | 0 <= x < |g| :: before[x] == Partway(g, grad0, root, Elems(T[i + 1..]), x)
    requires Fired(g, before, after, T[i])
    ensures |after| == |g|
    ensures forall x | 0 <= x < |g| :: after[x] == Partway(g, grad0, root, Elems(T[i..]), x)
  {
    var y := T[i];
    var P := Elems(T[i + 1..]);
    ReadyToFire(g, grad0, root, T, i);
    SuffixSplit(g, T, i);
    FireFinal(g, grad0, root, P, y, before, after);
  }

  /** Firing a consumer y whose gradient is already final adds y to the set
      of fired consumers, at every node. */
  lemma FireFinal(g: seq<Node>, grad0: seq<real>, root: nat, P: set<nat>, y: nat,
                  before: seq<real>, after: seq<real>)
    requires WellFormed(g) && root < |g| && |grad0| == |g|
    requires y <= root && y !in P
    requires |before| == |g|
    requires forall x | 0 <= x < |g| :: before[x] == Partway(g, grad0, root, P, x)
    requires before[y] == Adjoint(g, grad0, root, y)
    requires Fired(g, before, after, y)
    ensures |after| == |g|
    ensures forall x | 0 <= x < |g| :: after[x] == Partway(g, grad0, root, P + {y}, x)
  {
    forall x | 0 <= x < |g|
      ensures after[x] == Partway(g, grad0, root, P + {y}, x)
    {
      StepAt(g, grad0, root, P, y, x, before[x], after[x], before[y]);
    }
  }

  /** One node's gradient across the firing of y, whose gradient is final. */
  lemma StepAt(g: seq<Node>, grad0: seq<real>, root: nat, P: set<nat>, y: nat, x: nat,
               bx: real, ax: real, ay: real)
    requires WellFormed(g) && root < |g| && |grad0| == |g| && x < |g|
    requires y <= root && y !in P
    requires ay == Adjoint(g, grad0, root, y)
    requires bx == Partway(g, grad0, root, P, x)
    requires ax == bx + ChildWeight(g, y, x) * ay
    ensures ax == Partway(g, grad0, root, P + {y}, x)
  {
    if x >= y {
      WeightBelow(g, y, x);
      if x <= root {
        SumAgree(g, grad0, root, x, x + 1, P, P + {y});
      }
    } else {
      SumInsert(g, grad0, root, x, x + 1, P, y);
    }
  }

  /** A node without operands (a leaf) has no rule: leaving every gradient
      as it is counts as its firing. */
  lemma LeafFired(g: seq<Node>, before: seq<real>, y: nat)
    requires WellFormed(g) && y < |g| && |before| == |g|
    requires g[y].children == []
    ensures Fired(g, before, before, y)
  {
    forall x | 0 <= x < |before|
      ensures ChildWeight(g, y, x) == 0.0
    {
      WeightOnlyToChildren(g, y, x);
    }
  }

  /** A rule of a one-operand node that adds d, its local derivative times
      the node's gradient, into the operand. */
  lemma UnaryFired(g: seq<Node>, before: seq<real>, y: nat, d: real)
    requires WellFormed(g) && y < |g| && |before| == |g|
    requires |g[y].children| == 1
    requires d == Partial(g, y, 0) * before[y]
    ensures Fired(g, before, before[g[y].children[0] := before[g[y].children[0]] + d], y)
  {
    assert NodeOk(g, y);
    forall x | 0 <= x < |before|
    {
      WeightByPosition(g, y, x);
    }
  }

  /** A rule of a two-operand node that adds d0 into the first operand, then
      d1 into the second: each its local derivative times the node's
      gradient.  When both operands are the same node it receives both. */
  lemma BinaryFired(g: seq<Node>, before: seq<real>, y: nat, d0: real, d1: real)
    requires WellFormed(g) && y < |g| && |before| == |g|
    requires |g[y].children| == 2
    requires d0 == Partial(g, y, 0) * before[y] && d1 == Partial(g, y, 1) * before[y]
    ensures var a, b := g[y].children[0], g[y].children[1];
            var mid := before[a := before[a] + d0];
            Fired(g, before, mid[b := mid[b] + d1], y)
  {
    forall x | 0 <= x < |before|
    {
      WeightByPosition(g, y, x);
    }
  }

  /** After the pass the root's gradient is exactly 1, whatever it held
      before: it is set, not accumulated, and no reachable node sends it
      anything. */
  lemma AdjointRoot(g: seq<Node>, grad0: seq<real>, root: nat)
    requires WellFormed(g) && root < |g| && |grad0| == |g|
    ensures Adjoint(g, grad0, root, root) == 1.0
  {
  }

  /** A node the root does not reach keeps its gradient. */
  lemma AdjointUnreached(g: seq<Node>, grad0: seq<real>, root: nat, x: nat)
    requires WellFormed(g) && root < |g| && |grad0| == |g| && x < |g|
    requires x !in Reach(g, root)
    ensures Adjoint(g, grad0, root, x) == grad0[x]
  {
    if x <= root {
      forall z | x + 1 <= z <= root && z in Reach(g, root)
        ensures ChildWeight(g, z, x) == 0.0
      {
        if x in g[z].children {
          ReachClosed(g, root, z, x);
        }
        WeightOnlyToChildren(g, z, x);
      }
      SumAgree(g, grad0, root, x, x + 1, {}, Reach(g, root));
      SumEmpty(g, grad0, root, x, x + 1);
    }
  }
}
