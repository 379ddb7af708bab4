/**
 * The value nodes of the autograd engine: the operation tags, the node
 * record, the well-formedness of a node arena, and the local derivative each
 * operation's backward rule uses.
 *
 * A graph is an arena: a sequence of nodes in which a node refers to its
 * operands (its `children`) by index.  A constructor can only refer to nodes
 * that already exist, so every child index is smaller than the index of the
 * node that uses it; the arena order is therefore a topological order and the
 * graph is acyclic by construction.
 */
module Values {

  /** The operation that produced a node.  The constant the source keeps in
      the overloaded `powN` slot travels with its own tag here. */
  datatype Op =
    | Leaf
    | Add
    | AddScalar(k: real)   // the source folds k into `data` only; kept to state consistency
    | Sub
    | Mul
    | MulScalar(k: real)
    | Pow(n: int)
    | Div
    | ScalarDiv            // children [constant leaf, divisor]
    | Relu

  /** How many operands each operation records. */
  function Arity(op: Op): nat
  {
    match op
    case Leaf => 0
    case AddScalar(_) => 1
    case MulScalar(_) => 1
    case Pow(_) => 1
    case Relu => 1
    case Add => 2
    case Sub => 2
    case Mul => 2
    case Div => 2
    case ScalarDiv => 2
  }

  /** A node without its gradient: the forward value, the operands by arena
      index, and the operation.  None of these changes after construction. */
  datatype Node = Node(data: real, children: seq<nat>, op: Op)

  /** x raised to a natural power. */
  function NatPow(x: real, n: nat): (r: real)
    ensures x != 0.0 ==> r != 0.0
    ensures n == 0 ==> r == 1.0
  {
    if n == 0 then 1.0 else x * NatPow(x, n - 1)
  }

  /** x raised to an integer power, as `pow(x, n)` does for an integral
      exponent; a negative power of zero (infinity in IEEE 754) is excluded. */
  function Power(x: real, n: int): (r: real)
    requires n >= 0 || x != 0.0
    ensures x != 0.0 ==> r != 0.0
    ensures n == 0 ==> r == 1.0
    ensures n == 1 ==> r == x
    ensures n < 0 ==> r * NatPow(x, -n) == 1.0
  {
    if n >= 0 then NatPow(x, n) else 1.0 / NatPow(x, -n)
  }

  /** Relu's forward value, max(a, 0). */
  function ReluOf(a: real): (r: real)
    ensures r >= 0.0 && r >= a
    ensures r == a || r == 0.0
  {
    if a > 0.0 then a else 0.0
  }

  /** Node i of arena g is well formed: its operands exist before it, it has
      as many operands as its operation takes, its divisors are non-zero, and
      its value is its operation applied to its operands' values. */
  predicate NodeOk(g: seq<Node>, i: nat)
    requires i < |g|
  {
    var nd := g[i];
    && |nd.children| == Arity(nd.op)
    && (forall k | 0 <= k < |nd.children| :: nd.children[k] < i)
    && match nd.op
       case Leaf => true
       case Add => nd.data == g[nd.children[0]].data + g[nd.children[1]].data
       case AddScalar(k) => nd.data == g[nd.children[0]].data + k
       case Sub => nd.data == g[nd.children[0]].data - g[nd.children[1]].data
       case Mul => nd.data == g[nd.children[0]].data * g[nd.children[1]].data
       case MulScalar(k) => nd.data == g[nd.children[0]].data * k
       case Pow(n) =>
         && (n >= 1 || g[nd.children[0]].data != 0.0)
         && nd.data == Power(g[nd.children[0]].data, n)
       case Div =>
         && g[nd.children[1]].data != 0.0
         && nd.data == g[nd.children[0]].data / g[nd.children[1]].data
       case ScalarDiv =>
         && g[nd.children[0]].op == Leaf
         && g[nd.children[1]].data != 0.0
         && nd.data == g[nd.children[0]].data / g[nd.children[1]].data
       case Relu => nd.data == ReluOf(g[nd.children[0]].data)
  }

  /** Every node of the arena is well formed. */
  predicate WellFormed(g: seq<Node>)
  {
    && (forall i | 0 <= i < |g| :: NodeOk(g, i))
    && (forall i, k | 0 <= i < |g| && 0 <= k < |g[i].children| :: g[i].children[k] < i)
  }

  /** A node's well-formedness depends only on the nodes at or below its
      index, so it survives any extension of the arena. */
  lemma NodeOkExtend(g: seq<Node>, g': seq<Node>, i: nat)
    requires i < |g| <= |g'| && g'[..|g|] == g
    requires NodeOk(g, i)
    ensures NodeOk(g', i)
  {
    assert g'[i] == g[i];
    forall k | 0 <= k < |g[i].children|
      ensures g'[g[i].children[k]] == g[g[i].children[k]]
    {
      assert g[i].children[k] < i;
    }
  }

  /** Appending a well-formed node keeps the arena well formed. */
  lemma WellFormedAppend(g: seq<Node>, nd: Node)
    requires WellFormed(g)
    requires NodeOk(g + [nd], |g|)
    ensures WellFormed(g + [nd])
  {
    var g' := g + [nd];
    assert g'[..|g|] == g;
    forall i | 0 <= i < |g'|
      ensures NodeOk(g', i)
    {
      if i < |g| {
        NodeOkExtend(g, g', i);
      }
    }
  }

  /** The local derivative of node y with respect to its k-th operand: the
      factor by which the backward rule of y scales y's gradient before adding
      it into that operand's gradient. */
  function Partial(g: seq<Node>, y: nat, k: nat): real
    requires WellFormed(g) && y < |g| && k < |g[y].children|
  {
    assert NodeOk(g, y);
    var ch := g[y].children;
    match g[y].op
    case Leaf => 0.0
    case Add => 1.0
    case AddScalar(_) => 1.0
    case Sub => if k == 0 then 1.0 else -1.0
    case Mul => if k == 0 then g[ch[1]].data else g[ch[0]].data
    case MulScalar(c) => c
    case Pow(n) => n as real * Power(g[ch[0]].data, n - 1)
    case Div =>
      if k == 0 then 1.0 / g[ch[1]].data
      else -g[ch[0]].data / (g[ch[1]].data * g[ch[1]].data)
    case ScalarDiv =>
      if k == 0 then 0.0
      else -g[ch[0]].data / (g[ch[1]].data * g[ch[1]].data)
    case Relu => if g[y].data > 0.0 then 1.0 else 0.0
  }

  /** The total factor node y's rule sends to node x: the sum of the local
      derivatives over every operand position that holds x.  A node used as
      both operands receives both contributions. */
  function ChildWeight(g: seq<Node>, y: nat, x: nat): real
    requires WellFormed(g) && y < |g|
  {
    WeightFrom(g, y, x, 0)
  }

  /** The part of ChildWeight(g, y, x) from operand positions k and later. */
  function WeightFrom(g: seq<Node>, y: nat, x: nat, k: nat): real
    requires WellFormed(g) && y < |g| && k <= |g[y].children|
    decreases |g[y].children| - k
  {
    if k == |g[y].children| then 0.0
    else (if g[y].children[k] == x then Partial(g, y, k) else 0.0) + WeightFrom(g, y, x, k + 1)
  }

  /** The weight of a node on x, spelled out over its at most two operands. */
  lemma WeightByPosition(g: seq<Node>, y: nat, x: nat)
    requires WellFormed(g) && y < |g|
    ensures var ch := g[y].children;
      ChildWeight(g, y, x)
      == (if |ch| > 0 && ch[0] == x then Partial(g, y, 0) else 0.0)
       + (if |ch| > 1 && ch[1] == x then Partial(g, y, 1) else 0.0)
  {
    var ch := g[y].children;
    assert NodeOk(g, y);
    if |ch| == 1 {
      assert WeightFrom(g, y, x, 1) == 0.0;
    } else if |ch| == 2 {
      assert WeightFrom(g, y, x, 1)
          == (if ch[1] == x then Partial(g, y, 1) else 0.0) + WeightFrom(g, y, x, 2);
    }
  }

  /** Positions from k on that do not hold x contribute nothing to it. */
  lemma {:induction false} WeightFromAbsent(g: seq<Node>, y: nat, x: nat, k: nat)
    requires WellFormed(g) && y < |g| && k <= |g[y].children|
    requires x !in g[y].children[k..]
    ensures WeightFrom(g, y, x, k) == 0.0
    decreases |g[y].children| - k
  {
    if k < |g[y].children| {
      assert g[y].children[k] == g[y].children[k..][0];
      assert g[y].children[k + 1..] == g[y].children[k..][1..];
      WeightFromAbsent(g, y, x, k + 1);
    }
  }

  /** A node's rule sends nothing to a node that is not one of its operands;
      in particular nothing to itself, to later nodes, or from a leaf. */
  lemma WeightOnlyToChildren(g: seq<Node>, y: nat, x: nat)
    requires WellFormed(g) && y < |g|
    requires x !in g[y].children
    ensures ChildWeight(g, y, x) == 0.0
  {
    assert g[y].children[0..] == g[y].children;
    WeightFromAbsent(g, y, x, 0);
  }

  /** No rule sends anything to a node at or above its own index. */
  lemma WeightBelow(g: seq<Node>, y: nat, x: nat)
    requires WellFormed(g) && y < |g| && y <= x
    ensures ChildWeight(g, y, x) == 0.0
  {
    assert NodeOk(g, y);
    assert x !in g[y].children;
    WeightOnlyToChildren(g, y, x);
  }
}
