/**
 * What each backward rule sends to its operands, spelled out per operation,
 * and what a rule leaves alone.
 */
module Rules {
  import opened Values
  import opened Topo
  import opened Backprop

  /** A firing changes the gradient of the node's operands only: not the
      node's own, not any other node's. */
  lemma FiredOnlyOperands(g: seq<Node>, before: seq<real>, after: seq<real>, y: nat, x: nat)
    requires WellFormed(g) && y < |g| && |before| == |g| && x < |g|
    requires Fired(g, before, after, y)
    requires x !in g[y].children
    ensures after[x] == before[x]
  {
    WeightOnlyToChildren(g, y, x);
  }

  /** `addBackward`: each operand gets weight 1; a node used as both
      operands gets 2. */
  lemma AddWeights(g: seq<Node>, y: nat)
    requires WellFormed(g) && y < |g| && g[y].op == Add
    ensures |g[y].children| == 2
    ensures var a, b := g[y].children[0], g[y].children[1];
      && (a != b ==> ChildWeight(g, y, a) == 1.0 && ChildWeight(g, y, b) == 1.0)
      && (a == b ==> ChildWeight(g, y, a) == 2.0)
  {
    assert NodeOk(g, y);
    WeightByPosition(g, y, g[y].children[0]);
    WeightByPosition(g, y, g[y].children[1]);
  }

  /** `addScalarBackward`: the operand gets weight 1. */
  lemma AddScalarWeight(g: seq<Node>, y: nat)
    requires WellFormed(g) && y < |g| && g[y].op.AddScalar?
    ensures |g[y].children| == 1
    ensures ChildWeight(g, y, g[y].children[0]) == 1.0
  {
    assert NodeOk(g, y);
    WeightByPosition(g, y, g[y].children[0]);
  }

  /** `subBackward`: the first operand gets weight 1, the second -1; a node
      used as both gets 0. */
  lemma SubWeights(g: seq<Node>, y: nat)
    requires WellFormed(g) && y < |g| && g[y].op == Sub
    ensures |g[y].children| == 2
    ensures var a, b := g[y].children[0], g[y].children[1];
      && (a != b ==> ChildWeight(g, y, a) == 1.0 && ChildWeight(g, y, b) == -1.0)
      && (a == b ==> ChildWeight(g, y, a) == 0.0)
  {
    assert NodeOk(g, y);
    WeightByPosition(g, y, g[y].children[0]);
    WeightByPosition(g, y, g[y].children[1]);
  }

  /** `mulBackward`: each operand gets the other operand's value; a node
      used as both gets twice its value. */
  lemma MulWeights(g: seq<Node>, y: nat)
    requires WellFormed(g) && y < |g| && g[y].op == Mul
    ensures |g[y].children| == 2
    ensures var a, b := g[y].children[0], g[y].children[1];
      && (a != b ==> ChildWeight(g, y, a) == g[b].data && ChildWeight(g, y, b) == g[a].data)
      && (a == b ==> ChildWeight(g, y, a) == 2.0 * g[a].data)
  {
    assert NodeOk(g, y);
    WeightByPosition(g, y, g[y].children[0]);
    WeightByPosition(g, y, g[y].children[1]);
  }

  /** `mulScalarBackward`: the operand gets the stored constant. */
  lemma MulScalarWeight(g: seq<Node>, y: nat)
    requires WellFormed(g) && y < |g| && g[y].op.MulScalar?
    ensures |g[y].children| == 1
    ensures ChildWeight(g, y, g[y].children[0]) == g[y].op.k
  {
    assert NodeOk(g, y);
    WeightByPosition(g, y, g[y].children[0]);
  }

  /** `powBackward`: the operand a gets n * a^(n-1). */
  lemma PowWeight(g: seq<Node>, y: nat)
    requires WellFormed(g) && y < |g| && g[y].op.Pow?
    ensures |g[y].children| == 1
    ensures var a, n := g[y].children[0], g[y].op.n;
      (n >= 1 || g[a].data != 0.0) &&
      ChildWeight(g, y, a) == n as real * Power(g[a].data, n - 1)
  {
    assert NodeOk(g, y);
    WeightByPosition(g, y, g[y].children[0]);
  }

  /** `divBackward`: for a / b, a gets 1/b and b gets -a/b^2. */
  lemma DivWeights(g: seq<Node>, y: nat)
    requires WellFormed(g) && y < |g| && g[y].op == Div
    ensures |g[y].children| == 2
    ensures var a, b := g[y].children[0], g[y].children[1];
      && g[b].data != 0.0
      && (a != b ==>
            ChildWeight(g, y, a) == 1.0 / g[b].data
            && ChildWeight(g, y, b) == -g[a].data / (g[b].data * g[b].data))
  {
    assert NodeOk(g, y);
    WeightByPosition(g, y, g[y].children[0]);
    WeightByPosition(g, y, g[y].children[1]);
  }

  /** `scalarDivBackward`: for c / b, b gets -c/b^2 and the constant leaf c
      gets nothing, so its gradient stays as it was. */
  lemma ScalarDivWeights(g: seq<Node>, y: nat)
    requires WellFormed(g) && y < |g| && g[y].op == ScalarDiv
    ensures |g[y].children| == 2
    ensures var c, b := g[y].children[0], g[y].children[1];
      && g[c].op == Leaf && g[b].data != 0.0
      && (c != b ==>
            ChildWeight(g, y, c) == 0.0
            && ChildWeight(g, y, b) == -g[c].data / (g[b].data * g[b].data))
  {
    assert NodeOk(g, y);
    WeightByPosition(g, y, g[y].children[0]);
    WeightByPosition(g, y, g[y].children[1]);
  }

  /** `reluBackward`: the operand gets 1 when the output is positive and 0
      otherwise; in particular 0 when the input is 0. */
  lemma ReluWeight(g: seq<Node>, y: nat)
    requires WellFormed(g) && y < |g| && g[y].op == Relu
    ensures |g[y].children| == 1
    ensures var a := g[y].children[0];
      && (g[a].data > 0.0 ==> ChildWeight(g, y, a) == 1.0)
      && (g[a].data <= 0.0 ==> ChildWeight(g, y, a) == 0.0)
  {
    assert NodeOk(g, y);
    WeightByPosition(g, y, g[y].children[0]);
  }

  /** A chain u -> x = u * 2 -> r = x * 3, with u = 1. */
  ghost function Chain3(): seq<Node>
  {
    [Node(1.0, [], Leaf), Node(2.0, [0], MulScalar(2.0)), Node(6.0, [1], MulScalar(3.0))]
  }

  /** The input u and r = u * 2: a graph one operation deep. */
  ghost function Chain2(): seq<Node>
  {
    [Node(1.0, [], Leaf), Node(2.0, [0], MulScalar(2.0))]
  }

  /** On a graph one operation deep a second `backward` does double the
      input's gradient: the root is set back to 1 and its rule adds 1 * 2
      to the 2 that u already holds. */
  lemma SecondPassDoublesShallow()
    ensures WellFormed(Chain2())
    ensures Adjoint(Chain2(), [0.0, 0.0], 1, 0) == 2.0
    ensures Adjoint(Chain2(), [2.0, 1.0], 1, 0) == 4.0
  {
    var g := Chain2();
    assert NodeOk(g, 0) && NodeOk(g, 1);
    assert Reach(g, 0) == {0};
    assert Reach(g, 1) == {0, 1};
    MulScalarWeight(g, 1);
  }

  /** Calling `backward` a second time without clearing the gradients does
      not double them once the graph is two operations deep: the root is set
      back to 1 and the gradient left on the inner node flows down again.  On
      `Chain3` the first pass gives u the gradient 6 (and x 3, r 1); the
      second gives u 18, not 12. */
  lemma SecondPassNotDoubled()
    ensures WellFormed(Chain3())
    ensures Adjoint(Chain3(), [0.0, 0.0, 0.0], 2, 0) == 6.0
    ensures Adjoint(Chain3(), [0.0, 0.0, 0.0], 2, 1) == 3.0
    ensures Adjoint(Chain3(), [6.0, 3.0, 1.0], 2, 0) == 18.0
  {
    Chain3Shape();
    MulScalarWeight(Chain3(), 1);
    MulScalarWeight(Chain3(), 2);
  }

  /** `Chain3` is well formed, and its root reaches every node. */
  lemma Chain3Shape()
    ensures WellFormed(Chain3())
    ensures Reach(Chain3(), 0) == {0} && Reach(Chain3(), 1) == {0, 1}
    ensures Reach(Chain3(), 2) == {0, 1, 2}
  {
    var g := Chain3();
    assert NodeOk(g, 0) && NodeOk(g, 1) && NodeOk(g, 2);
    assert Reach(g, 0) == {0};
    assert Reach(g, 1) == {0, 1};
  }
}
