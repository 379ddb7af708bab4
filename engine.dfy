/**
 * The autograd engine: an arena of value nodes with their gradients, the
 * constructors that append nodes, the per-operation backward rules, and the
 * backward pass.
 *
 * A `Value*` of the source is an index into `nodes`.  The gradient of node i
 * is `grad[i]`; it is the only thing the backward pass changes.
 */
module Engine {
  import opened Values
  import opened Topo
  import opened Backprop

  /** The capacity of the `topo` and `visited` arrays of `backward`. */
  const Capacity: nat := 1024

  class Graph {
    var nodes: seq<Node>
    var grad: seq<real>

    /** Every node is well formed and has a gradient. */
    ghost predicate Valid()
      reads this
    {
      WellFormed(nodes) && |grad| == |nodes|
    }

    /** An empty arena. */
    constructor ()
      ensures Valid() && nodes == [] && grad == []
    {
      nodes := [];
      grad := [];
    }

    /** Appends a node with gradient 0 and returns its index. */
    method Push(nd: Node) returns (v: nat)
      requires Valid() && NodeOk(nodes + [nd], |nodes|)
      modifies this
      ensures Valid() && v == old(|nodes|)
      ensures nodes == old(nodes) + [nd] && grad == old(grad) + [0.0]
    {
      WellFormedAppend(nodes, nd);
      v := |nodes|;
      nodes := nodes + [nd];
      grad := grad + [0.0];
    }

    /** `value_new`: a leaf holding x, with gradient 0, no operands and no
        backward rule. */
    method ValueNew(x: real) returns (v: nat)
      requires Valid()
      modifies this
      ensures Valid() && v == old(|nodes|)
      ensures nodes == old(nodes) + [Node(x, [], Leaf)] && grad == old(grad) + [0.0]
    {
      v := Push(Node(x, [], Leaf));
    }

    /** `valueAdd`: a + b, with operands [a, b]. */
    method ValueAdd(a: nat, b: nat) returns (v: nat)
      requires Valid() && a < |nodes| && b < |nodes|
      modifies this
      ensures Valid() && v == old(|nodes|)
      ensures nodes == old(nodes) + [Node(old(nodes)[a].data + old(nodes)[b].data, [a, b], Add)]
      ensures grad == old(grad) + [0.0]
    {
      v := Push(Node(nodes[a].data + nodes[b].data, [a, b], Add));
    }

    /** `valueAddScalar`: a + k, with operand [a]. */
    method ValueAddScalar(a: nat, k: real) returns (v: nat)
      requires Valid() && a < |nodes|
      modifies this
      ensures Valid() && v == old(|nodes|)
      ensures nodes == old(nodes) + [Node(old(nodes)[a].data + k, [a], AddScalar(k))]
      ensures grad == old(grad) + [0.0]
    {
      v := Push(Node(nodes[a].data + k, [a], AddScalar(k)));
    }

    /** `valueMul`: a * b, with operands [a, b]. */
    method ValueMul(a: nat, b: nat) returns (v: nat)
      requires Valid() && a < |nodes| && b < |nodes|
      modifies this
      ensures Valid() && v == old(|nodes|)
      ensures nodes == old(nodes) + [Node(old(nodes)[a].data * old(nodes)[b].data, [a, b], Mul)]
      ensures grad == old(grad) + [0.0]
    {
      v := Push(Node(nodes[a].data * nodes[b].data, [a, b], Mul));
    }

    /** `valueMulScalar`: a * k, with operand [a]; k is kept for the rule. */
    method ValueMulScalar(a: nat, k: real) returns (v: nat)
      requires Valid() && a < |nodes|
      modifies this
      ensures Valid() && v == old(|nodes|)
      ensures nodes == old(nodes) + [Node(old(nodes)[a].data * k, [a], MulScalar(k))]
      ensures grad == old(grad) + [0.0]
    {
      v := Push(Node(nodes[a].data * k, [a], MulScalar(k)));
    }

    /** `valuePow`: a to the integer power n, with operand [a].  A negative
        or zero power of zero has no finite derivative and is excluded. */
    method ValuePow(a: nat, n: int) returns (v: nat)
      requires Valid() && a < |nodes|
      requires n >= 1 || nodes[a].data != 0.0
      modifies this
      ensures Valid() && v == old(|nodes|)
      ensures nodes == old(nodes) + [Node(Power(old(nodes)[a].data, n), [a], Pow(n))]
      ensures grad == old(grad) + [0.0]
    {
      v := Push(Node(Power(nodes[a].data, n), [a], Pow(n)));
    }

    /** `relu`: max(a, 0), with operand [a]. */
    method Relu(a: nat) returns (v: nat)
      requires Valid() && a < |nodes|
      modifies this
      ensures Valid() && v == old(|nodes|)
      ensures nodes == old(nodes) + [Node(ReluOf(old(nodes)[a].data), [a], Values.Relu)]
      ensures grad == old(grad) + [0.0]
    {
      v := Push(Node(if nodes[a].data > 0.0 then nodes[a].data else 0.0, [a], Values.Relu));
    }

    /** `valueNeg`: a times the constant -1. */
    method ValueNeg(a: nat) returns (v: nat)
      requires Valid() && a < |nodes|
      modifies this
      ensures Valid() && v == old(|nodes|)
      ensures nodes == old(nodes) + [Node(-old(nodes)[a].data, [a], MulScalar(-1.0))]
      ensures grad == old(grad) + [0.0]
    {
      ghost var x := nodes[a].data;
      v := ValueMulScalar(a, -1.0);
      assert nodes[v].data == x * -1.0 == -x;
    }

    /** `valueSub`: a - b, with operands [a, b]. */
    method ValueSub(a: nat, b: nat) returns (v: nat)
      requires Valid() && a < |nodes| && b < |nodes|
      modifies this
      ensures Valid() && v == old(|nodes|)
      ensures nodes == old(nodes) + [Node(old(nodes)[a].data - old(nodes)[b].data, [a, b], Sub)]
      ensures grad == old(grad) + [0.0]
    {
      v := Push(Node(nodes[a].data - nodes[b].data, [a, b], Sub));
    }

    /** `valueSubScalar`: a plus the constant -k. */
    method ValueSubScalar(a: nat, k: real) returns (v: nat)
      requires Valid() && a < |nodes|
      modifies this
      ensures Valid() && v == old(|nodes|)
      ensures nodes == old(nodes) + [Node(old(nodes)[a].data - k, [a], AddScalar(-k))]
      ensures grad == old(grad) + [0.0]
    {
      v := ValueAddScalar(a, -k);
    }

    /** `valueTruediv`: a / b, with operands [a, b]; b must be non-zero. */
    method ValueTruediv(a: nat, b: nat) returns (v: nat)
      requires Valid() && a < |nodes| && b < |nodes|
      requires nodes[b].data != 0.0
      modifies this
      ensures Valid() && v == old(|nodes|)
      ensures nodes == old(nodes) + [Node(old(nodes)[a].data / old(nodes)[b].data, [a, b], Div)]
      ensures grad == old(grad) + [0.0]
    {
      v := Push(Node(nodes[a].data / nodes[b].data, [a, b], Div));
    }

    /** `valueTruedivScalar`: a times the constant k^-1, which is 1/k; k
        must be non-zero.  (The new node's value, a's value times 1/k, follows
        from `Valid()`.) */
    method ValueTruedivScalar(a: nat, k: real) returns (v: nat)
      requires Valid() && a < |nodes|
      requires k != 0.0
      modifies this
      ensures Valid() && v == old(|nodes|)
      ensures |nodes| == v + 1 && nodes[..v] == old(nodes)
      ensures nodes[v].children == [a] && nodes[v].op == MulScalar(1.0 / k)
      ensures grad == old(grad) + [0.0]
    {
      var reciprocal := Power(k, -1);
      assert reciprocal == 1.0 / k by {
        assert NatPow(k, 1) == k * NatPow(k, 0) == k;
      }
      v := ValueMulScalar(a, reciprocal);
    }

    /** `valueScalarTruediv`: the constant c divided by b.  c is first wrapped
        in a fresh leaf, which becomes the first operand. */
    method ValueScalarTruediv(c: real, b: nat) returns (v: nat)
      requires Valid() && b < |nodes|
      requires nodes[b].data != 0.0
      modifies this
      ensures Valid() && v == old(|nodes|) + 1
      ensures nodes == old(nodes) + [Node(c, [], Leaf),
                                      Node(c / old(nodes)[b].data, [old(|nodes|), b], ScalarDiv)]
      ensures grad == old(grad) + [0.0, 0.0]
    {
      var cv := ValueNew(c);
      v := Push(Node(c / nodes[b].data, [cv, b], ScalarDiv));
    }

    // The backward rules.  Each reads the node's gradient and adds into its
    // operands' gradients; the data and the operands never change.

    /** `addBackward`: both operands receive out's gradient. */
    method AddBackward(out: nat)
      requires Valid() && out < |nodes| && nodes[out].op == Add
      modifies this`grad
      ensures Fired(nodes, old(grad), grad, out)
    {
      assert NodeOk(nodes, out);
      var a, b := nodes[out].children[0], nodes[out].children[1];
      BinaryFired(nodes, grad, out, grad[out], grad[out]);
      grad := grad[a := grad[a] + grad[out]];
      grad := grad[b := grad[b] + grad[out]];
    }

    /** `addScalarBackward`: the operand receives out's gradient. */
    method AddScalarBackward(out: nat)
      requires Valid() && out < |nodes| && nodes[out].op.AddScalar?
      modifies this`grad
      ensures Fired(nodes, old(grad), grad, out)
    {
      assert NodeOk(nodes, out);
      var a := nodes[out].children[0];
      UnaryFired(nodes, grad, out, grad[out]);
      grad := grad[a := grad[a] + grad[out]];
    }

    /** `subBackward`: the first operand receives out's gradient, the second
        loses it. */
    method SubBackward(out: nat)
      requires Valid() && out < |nodes| && nodes[out].op == Sub
      modifies this`grad
      ensures Fired(nodes, old(grad), grad, out)
    {
      assert NodeOk(nodes, out);
      var a, b := nodes[out].children[0], nodes[out].children[1];
      BinaryFired(nodes, grad, out, grad[out], -grad[out]);
      grad := grad[a := grad[a] + grad[out]];
      grad := grad[b := grad[b] - grad[out]];
    }

    /** `mulBackward`: each operand receives the other's value times out's
        gradient. */
    method MulBackward(out: nat)
      requires Valid() && out < |nodes| && nodes[out].op == Mul
      modifies this`grad
      ensures Fired(nodes, old(grad), grad, out)
    {
      assert NodeOk(nodes, out);
      var a, b := nodes[out].children[0], nodes[out].children[1];
      var da := nodes[b].data * grad[out];
      var db := nodes[a].data * grad[out];
      BinaryFired(nodes, grad, out, da, db);
      grad := grad[a := grad[a] + da];
      grad := grad[b := grad[b] + db];
    }

    /** `mulScalarBackward`: the operand receives the stored constant times
        out's gradient. */
    method MulScalarBackward(out: nat)
      requires Valid() && out < |nodes| && nodes[out].op.MulScalar?
      modifies this`grad
      ensures Fired(nodes, old(grad), grad, out)
    {
      assert NodeOk(nodes, out);
      var a := nodes[out].children[0];
      var k := nodes[out].op.k;
      UnaryFired(nodes, grad, out, k * grad[out]);
      grad := grad[a := grad[a] + k * grad[out]];
    }

    /** `powBackward`: the operand receives out's gradient times
        n * a^(n-1). */
    method PowBackward(out: nat)
      requires Valid() && out < |nodes| && nodes[out].op.Pow?
      modifies this`grad
      ensures Fired(nodes, old(grad), grad, out)
    {
      assert NodeOk(nodes, out);
      var a := nodes[out].children[0];
      var n := nodes[out].op.n;
      var d := grad[out] * Power(nodes[a].data, n - 1) * (n as real);
      UnaryFired(nodes, grad, out, d);
      grad := grad[a := grad[a] + d];
    }

    /** `divBackward`: a receives out's gradient over b, and b receives
        -a / b^2 times out's gradient. */
    method DivBackward(out: nat)
      requires Valid() && out < |nodes| && nodes[out].op == Div
      modifies this`grad
      ensures Fired(nodes, old(grad), grad, out)
    {
      assert NodeOk(nodes, out);
      var a, b := nodes[out].children[0], nodes[out].children[1];
      var da := (1.0 / nodes[b].data) * grad[out];
      var db := (-nodes[a].data / (nodes[b].data * nodes[b].data)) * grad[out];
      BinaryFired(nodes, grad, out, da, db);
      grad := grad[a := grad[a] + da];
      grad := grad[b := grad[b] + db];
    }

    /** `scalarDivBackward`: only the divisor receives -c / b^2 times out's
        gradient; the constant leaf is left alone. */
    method ScalarDivBackward(out: nat)
      requires Valid() && out < |nodes| && nodes[out].op == ScalarDiv
      modifies this`grad
      ensures Fired(nodes, old(grad), grad, out)
    {
      assert NodeOk(nodes, out);
      var a, b := nodes[out].children[0], nodes[out].children[1];
      var db := (-nodes[a].data / (nodes[b].data * nodes[b].data)) * grad[out];
      BinaryFired(nodes, grad, out, 0.0, db);
      assert grad[a := grad[a] + 0.0] == grad;
      grad := grad[b := grad[b] + db];
    }

    /** `reluBackward`: the operand receives out's gradient when out's value
        is positive, nothing otherwise. */
    method ReluBackward(out: nat)
      requires Valid() && out < |nodes| && nodes[out].op == Values.Relu
      modifies this`grad
      ensures Fired(nodes, old(grad), grad, out)
    {
      assert NodeOk(nodes, out);
      var a := nodes[out].children[0];
      var local := if nodes[out].data > 0.0 then 1.0 else 0.0;
      UnaryFired(nodes, grad, out, local * grad[out]);
      grad := grad[a := grad[a] + local * grad[out]];
    }

    /** `out->backward(out)`, or nothing for a leaf, whose rule is NULL. */
    method FireRule(out: nat)
      requires Valid() && out < |nodes|
      modifies this`grad
      ensures Fired(nodes, old(grad), grad, out)
    {
      assert NodeOk(nodes, out);
      match nodes[out].op
      case Leaf => LeafFired(nodes, grad, out);
      case Add => AddBackward(out);
      case AddScalar(_) => AddScalarBackward(out);
      case Sub => SubBackward(out);
      case Mul => MulBackward(out);
      case MulScalar(_) => MulScalarBackward(out);
      case Pow(_) => PowBackward(out);
      case Div => DivBackward(out);
      case ScalarDiv => ScalarDivBackward(out);
      case Relu => ReluBackward(out);
    }

    /** `backward`: sorts the nodes reachable from root operand-first, sets
        the root's gradient to 1, and fires the rules in reverse order.  Each
        node ends with its `Adjoint`: the root exactly 1, every other node its
        earlier gradient plus what its reachable consumers sent it. */
    method Backward(root: nat)
      requires Valid() && root < |nodes|
      requires |Reach(nodes, root)| <= Capacity
      modifies this`grad
      ensures Valid()
      ensures forall x | 0 <= x < |nodes| :: grad[x] == Adjoint(nodes, old(grad), root, x)
    {
      var topo, visited := BuildTopo(nodes, root, [], []);
      assert Elems(topo) == Reach(nodes, root);
      ghost var grad0 := grad;
      PartwayStart(nodes, grad0, root);
      grad := grad[root := 1.0];
      var i := |topo| - 1;
      assert Elems(topo[i + 1..]) == {};
      while i >= 0
        invariant -1 <= i < |topo|
        invariant |grad| == |nodes|
        invariant forall x | 0 <= x < |nodes| ::
                    grad[x] == Partway(nodes, grad0, root, Elems(topo[i + 1..]), x)
      {
        OrderedAt(nodes, topo, i);
        ghost var before := grad;
        FireRule(topo[i]);
        BackwardStep(nodes, grad0, root, topo, i, before, grad);
        i := i - 1;
      }
      assert topo[0..] == topo;
      forall x | 0 <= x < |nodes|
        ensures grad[x] == Adjoint(nodes, grad0, root, x)
      {
        PartwayDone(nodes, grad0, root, x);
      }
    }
  }
}
