/**
 * The forward pass of the network: `call_neuron`, `call_layer` and
 * `call_mlp` build the expression graph of the network's output on the
 * arena.  Each is proved against an evaluation on plain values: the data of
 * the nodes it returns is the network's output on the data of its inputs,
 * read in the arena as it was before the call.
 */
module Forward {
  import opened Values
  import opened Engine
  import opened Nn

  /** The values held by the nodes idx. */
  function Data(nodes: seq<Node>, idx: seq<nat>): seq<real>
    requires InArena(nodes, idx)
  {
    seq(|idx|, i requires 0 <= i < |idx| => nodes[idx[i]].data)
  }

  /** w[0]*x[0] + ... + w[k-1]*x[k-1], summed from the left starting at 0,
      in the order `call_neuron` accumulates it. */
  function Dot(ws: seq<real>, xs: seq<real>, k: nat): real
    requires k <= |ws| && k <= |xs|
  {
    if k == 0 then 0.0 else Dot(ws, xs, k - 1) + ws[k - 1] * xs[k - 1]
  }

  /** The same dot product read straight from the arena: the data of nodes
      w[j] times the data of nodes x[j], summed from the left. */
  function DotIn(nodes: seq<Node>, w: seq<nat>, x: seq<nat>, k: nat): real
    requires k <= |w| && k <= |x| && InArena(nodes, w) && InArena(nodes, x)
  {
    if k == 0 then 0.0 else DotIn(nodes, w, x, k - 1) + nodes[w[k - 1]].data * nodes[x[k - 1]].data
  }

  /** Reading the arena first and then taking the dot product gives the same
      sum. */
  lemma {:induction false} DotInData(nodes: seq<Node>, w: seq<nat>, x: seq<nat>, k: nat)
    requires k <= |w| && k <= |x| && InArena(nodes, w) && InArena(nodes, x)
    ensures DotIn(nodes, w, x, k) == Dot(Data(nodes, w), Data(nodes, x), k)
  {
    if k > 0 {
      DotInData(nodes, w, x, k - 1);
    }
  }

  /** A neuron's output on inputs xs: the weighted sum plus the bias, passed
      through relu when the neuron is nonlinear. */
  function NeuronEval(ws: seq<real>, b: real, xs: seq<real>, nonlin: bool): real
    requires |ws| <= |xs|
  {
    var s := Dot(ws, xs, |ws|) + b;
    if nonlin then ReluOf(s) else s
  }

  /** All parameters of the neuron are nodes of the arena. */
  predicate NeuronIn(nodes: seq<Node>, n: Neuron)
  {
    InArena(nodes, n.weights) && n.bias < |nodes|
  }

  /** The neuron's output on xs with the weights and bias the arena holds. */
  function NeuronValue(nodes: seq<Node>, n: Neuron, xs: seq<real>): real
    requires NeuronIn(nodes, n) && |n.weights| <= |xs|
  {
    NeuronEval(Data(nodes, n.weights), nodes[n.bias].data, xs, n.nonlin)
  }

  /** The neuron's output on the nodes x, read straight from the arena. */
  function NeuronAt(nodes: seq<Node>, n: Neuron, x: seq<nat>): real
    requires NeuronIn(nodes, n) && InArena(nodes, x) && |n.weights| <= |x|
  {
    var s := DotIn(nodes, n.weights, x, |n.weights|) + nodes[n.bias].data;
    if n.nonlin then ReluOf(s) else s
  }

  /** Reading the arena first and then evaluating the neuron gives the same
      output. */
  lemma NeuronAtValue(nodes: seq<Node>, n: Neuron, x: seq<nat>)
    requires NeuronIn(nodes, n) && InArena(nodes, x) && |n.weights| <= |x|
    ensures NeuronAt(nodes, n, x) == NeuronValue(nodes, n, Data(nodes, x))
  {
    DotInData(nodes, n.weights, x, |n.weights|);
  }

  /** All parameters of the layer are nodes of the arena. */
  predicate LayerIn(nodes: seq<Node>, l: Layer)
  {
    forall j | 0 <= j < |l.neurons| :: NeuronIn(nodes, l.neurons[j])
  }

  /** The layer's outputs on xs: one per neuron, in order. */
  function LayerEval(nodes: seq<Node>, l: Layer, xs: seq<real>): (r: seq<real>)
    requires LayerShape(l) && LayerIn(nodes, l) && l.nin <= |xs|
    ensures |r| == |l.neurons|
  {
    seq(|l.neurons|, j requires 0 <= j < |l.neurons| => NeuronValue(nodes, l.neurons[j], xs))
  }

  /** All parameters of the layers are nodes of the arena. */
  predicate MlpIn(nodes: seq<Node>, layers: seq<Layer>)
  {
    forall k | 0 <= k < |layers| :: LayerIn(nodes, layers[k])
  }

  /** The first layer takes at most as many inputs as there are. */
  predicate Fits(layers: seq<Layer>, xs: seq<real>)
  {
    |layers| > 0 ==> layers[0].nin <= |xs|
  }

  /** The outputs of the first k layers applied one after the other to xs;
      with no layer, xs itself.  There are as many as the k-th layer has
      neurons. */
  function MlpEval(nodes: seq<Node>, layers: seq<Layer>, k: nat, xs: seq<real>): (r: seq<real>)
    requires k <= |layers| && MlpShape(Mlp(layers)) && MlpIn(nodes, layers) && Fits(layers, xs)
    ensures |r| == if k == 0 then |xs| else |layers[k - 1].neurons|
  {
    if k == 0 then xs
    else
      var ys := MlpEval(nodes, layers, k - 1, xs);
      LayerEval(nodes, layers[k - 1], ys)
  }

  /** Values read in an arena stay the same once it has grown. */
  lemma DataKept(nodes0: seq<Node>, grad0: seq<real>, nodes: seq<Node>, grad: seq<real>, idx: seq<nat>)
    requires Grown(nodes0, grad0, nodes, grad) && InArena(nodes0, idx)
    ensures InArena(nodes, idx) && Data(nodes, idx) == Data(nodes0, idx)
  {
  }

  /** A layer computes the same outputs once the arena has grown. */
  lemma LayerEvalKept(nodes0: seq<Node>, grad0: seq<real>, nodes: seq<Node>, grad: seq<real>,
                      l: Layer, xs: seq<real>)
    requires Grown(nodes0, grad0, nodes, grad)
    requires LayerShape(l) && LayerIn(nodes0, l) && l.nin <= |xs|
    ensures LayerIn(nodes, l) && LayerEval(nodes, l, xs) == LayerEval(nodes0, l, xs)
  {
    forall j | 0 <= j < |l.neurons|
      ensures NeuronIn(nodes, l.neurons[j])
      ensures NeuronValue(nodes, l.neurons[j], xs) == NeuronValue(nodes0, l.neurons[j], xs)
    {
      DataKept(nodes0, grad0, nodes, grad, l.neurons[j].weights);
    }
  }

  /** The loop of `call_neuron`: a leaf 0, then for each i a node w[i] * x[i]
      and a node adding it to the running sum.  The node returned holds the
      dot product of the data of w and x. */
  method WeightedSum(g: Graph, w: seq<nat>, x: seq<nat>) returns (sum: nat)
    requires g.Valid() && InArena(g.nodes, w) && InArena(g.nodes, x) && |w| <= |x|
    modifies g
    ensures g.Valid() && Grown(old(g.nodes), old(g.grad), g.nodes, g.grad)
    ensures old(|g.nodes|) <= sum < |g.nodes|
    ensures g.nodes[sum].data == DotIn(old(g.nodes), w, x, |w|)
  {
    sum := g.ValueNew(0.0);
    var i := 0;
    while i < |w|
      invariant 0 <= i <= |w|
      invariant g.Valid() && Grown(old(g.nodes), old(g.grad), g.nodes, g.grad)
      invariant old(|g.nodes|) <= sum < |g.nodes|
      invariant g.nodes[sum].data == DotIn(old(g.nodes), w, x, i)
    {
      var prod := g.ValueMul(w[i], x[i]);
      sum := g.ValueAdd(sum, prod);
      i := i + 1;
    }
  }

  /** `call_neuron`: the weighted sum of x, plus the bias, through relu when
      the neuron is nonlinear.  The node returned holds the neuron's output
      on x; it is a relu node exactly when the neuron is nonlinear. */
  method CallNeuron(g: Graph, n: Neuron, x: seq<nat>) returns (out: nat)
    requires g.Valid() && NeuronIn(g.nodes, n) && InArena(g.nodes, x) && |n.weights| <= |x|
    modifies g
    ensures g.Valid() && Grown(old(g.nodes), old(g.grad), g.nodes, g.grad)
    ensures old(|g.nodes|) <= out < |g.nodes|
    ensures g.nodes[out].data == NeuronAt(old(g.nodes), n, x)
    ensures (g.nodes[out].op == Values.Relu) == n.nonlin
  {
    var sum := WeightedSum(g, n.weights, x);
    var res := g.ValueAdd(sum, n.bias);
    if n.nonlin {
      out := g.Relu(res);
    } else {
      out := res;
    }
  }

  /** The dot product read from an arena stays the same once it has grown. */
  lemma {:induction false} DotInKept(nodes0: seq<Node>, grad0: seq<real>, nodes: seq<Node>, grad: seq<real>,
                                     w: seq<nat>, x: seq<nat>, k: nat)
    requires Grown(nodes0, grad0, nodes, grad)
    requires k <= |w| && k <= |x| && InArena(nodes0, w) && InArena(nodes0, x)
    ensures InArena(nodes, w) && InArena(nodes, x)
    ensures DotIn(nodes, w, x, k) == DotIn(nodes0, w, x, k)
  {
    if k > 0 {
      DotInKept(nodes0, grad0, nodes, grad, w, x, k - 1);
    }
  }

  /** A neuron read from an arena gives the same output once it has grown. */
  lemma NeuronAtKept(nodes0: seq<Node>, grad0: seq<real>, nodes: seq<Node>, grad: seq<real>,
                     n: Neuron, x: seq<nat>)
    requires Grown(nodes0, grad0, nodes, grad)
    requires NeuronIn(nodes0, n) && InArena(nodes0, x) && |n.weights| <= |x|
    ensures NeuronIn(nodes, n) && InArena(nodes, x)
    ensures NeuronAt(nodes, n, x) == NeuronAt(nodes0, n, x)
  {
    DotInKept(nodes0, grad0, nodes, grad, n.weights, x, |n.weights|);
  }

  /** Nodes out[0..k-1] of the arena hold the outputs of the layer's first k
      neurons on x, read from the arena nodes0, and each is a relu node
      exactly when its neuron is nonlinear. */
  predicate HoldsOutputs(nodes: seq<Node>, out: seq<nat>, nodes0: seq<Node>, l: Layer, x: seq<nat>)
    requires LayerShape(l) && LayerIn(nodes0, l) && InArena(nodes0, x) && l.nin <= |x|
  {
    && |out| <= |l.neurons| && InArena(nodes, out)
    && forall j | 0 <= j < |out| ::
         && nodes[out[j]].data == NeuronAt(nodes0, l.neurons[j], x)
         && (nodes[out[j]].op == Values.Relu <==> l.neurons[j].nonlin)
  }

  /** One more neuron's output, in an arena grown from the one holding the
      earlier outputs, extends them. */
  lemma HoldsStep(nodes1: seq<Node>, grad1: seq<real>, nodes2: seq<Node>, grad2: seq<real>,
                  out: seq<nat>, o: nat, nodes0: seq<Node>, l: Layer, x: seq<nat>)
    requires LayerShape(l) && LayerIn(nodes0, l) && InArena(nodes0, x) && l.nin <= |x|
    requires HoldsOutputs(nodes1, out, nodes0, l, x) && |out| < |l.neurons|
    requires Grown(nodes1, grad1, nodes2, grad2) && o < |nodes2|
    requires nodes2[o].data == NeuronAt(nodes0, l.neurons[|out|], x)
    requires nodes2[o].op == Values.Relu <==> l.neurons[|out|].nonlin
    ensures HoldsOutputs(nodes2, out + [o], nodes0, l, x)
  {
  }

  /** `call_layer`: calls each neuron on x, in order.  Node out[j] holds
      neuron j's output on x, and is a relu node exactly when that neuron is
      nonlinear. */
  method CallLayer(g: Graph, l: Layer, x: seq<nat>) returns (out: seq<nat>)
    requires g.Valid() && LayerShape(l) && LayerIn(g.nodes, l) && InArena(g.nodes, x) && l.nin <= |x|
    modifies g
    ensures g.Valid() && Grown(old(g.nodes), old(g.grad), g.nodes, g.grad)
    ensures |out| == |l.neurons| && HoldsOutputs(g.nodes, out, old(g.nodes), l, x)
  {
    out := [];
    var i := 0;
    while i < |l.neurons|
      invariant 0 <= i <= |l.neurons| && |out| == i
      invariant g.Valid() && Grown(old(g.nodes), old(g.grad), g.nodes, g.grad)
      invariant HoldsOutputs(g.nodes, out, old(g.nodes), l, x)
    {
      ghost var nodes1, grad1 := g.nodes, g.grad;
      NeuronAtKept(old(g.nodes), old(g.grad), g.nodes, g.grad, l.neurons[i], x);
      var o := CallNeuron(g, l.neurons[i], x);
      GrownJoin(old(g.nodes), old(g.grad), nodes1, grad1, g.nodes, g.grad);
      HoldsStep(nodes1, grad1, g.nodes, g.grad, out, o, old(g.nodes), l, x);
      out := out + [o];
      i := i + 1;
    }
  }

  /** Nodes holding each neuron's output, read from the arena, hold the
      layer's outputs on the data of x. */
  lemma LayerOutputs(nodes0: seq<Node>, nodes: seq<Node>, l: Layer, x: seq<nat>, out: seq<nat>)
    requires LayerShape(l) && LayerIn(nodes0, l) && InArena(nodes0, x) && l.nin <= |x|
    requires |out| == |l.neurons| && HoldsOutputs(nodes, out, nodes0, l, x)
    ensures Data(nodes, out) == LayerEval(nodes0, l, Data(nodes0, x))
  {
    forall j | 0 <= j < |out|
      ensures nodes[out[j]].data == NeuronValue(nodes0, l.neurons[j], Data(nodes0, x))
    {
      NeuronAtValue(nodes0, l.neurons[j], x);
    }
  }

  /** `call_mlp`: feeds x through the layers in order, each layer's outputs
      being the next one's inputs.  The nodes returned hold the network's
      outputs on the data of x; with no layer they are x itself. */
  method CallMlp(g: Graph, m: Mlp, x: seq<nat>) returns (out: seq<nat>)
    requires g.Valid() && MlpShape(m) && MlpIn(g.nodes, m.layers) && InArena(g.nodes, x)
    requires Fits(m.layers, Data(g.nodes, x))
    modifies g
    ensures g.Valid() && Grown(old(g.nodes), old(g.grad), g.nodes, g.grad)
    ensures InArena(g.nodes, out)
    ensures Data(g.nodes, out) == MlpEval(old(g.nodes), m.layers, |m.layers|, Data(old(g.nodes), x))
  {
    ghost var xs := Data(g.nodes, x);
    out := x;
    var i := 0;
    while i < |m.layers|
      invariant 0 <= i <= |m.layers|
      invariant g.Valid() && Grown(old(g.nodes), old(g.grad), g.nodes, g.grad)
      invariant InArena(g.nodes, out)
      invariant Data(g.nodes, out) == MlpEval(old(g.nodes), m.layers, i, xs)
    {
      ghost var nodes1, grad1 := g.nodes, g.grad;
      ghost var ins := Data(g.nodes, out);
      LayerEvalKept(old(g.nodes), old(g.grad), g.nodes, g.grad, m.layers[i], ins);
      var ins' := out;
      out := CallLayer(g, m.layers[i], ins');
      LayerOutputs(nodes1, g.nodes, m.layers[i], ins', out);
      GrownJoin(old(g.nodes), old(g.grad), nodes1, grad1, g.nodes, g.grad);
      i := i + 1;
    }
  }

  /** In an MLP built by `create_mlp` every layer but the last applies relu,
      so what a hidden layer passes on to the next one is never negative. */
  lemma HiddenNonNegative(nodes: seq<Node>, layers: seq<Layer>, nin: nat, nouts: seq<nat>,
                          xs: seq<real>, k: nat)
    requires |layers| == |nouts| && BuiltPrefix(layers, nin, nouts) && MlpShape(Mlp(layers))
    requires MlpIn(nodes, layers) && Fits(layers, xs)
    requires 0 < k < |layers|
    ensures forall j | 0 <= j < |MlpEval(nodes, layers, k, xs)| :: MlpEval(nodes, layers, k, xs)[j] >= 0.0
  {
    assert LayerBuilt(layers[k - 1], nin, nouts, k - 1);
  }
}
