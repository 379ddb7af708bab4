/**
 * The network layer: neurons, layers and multi-layer perceptrons built from
 * value nodes, their parameter lists, and their forward evaluation.
 *
 * A neuron, a layer and an MLP are never changed after they are created, so
 * they are values here; the parameters and the nodes a forward pass builds
 * live in the arena of an `Engine.Graph` and are referred to by index.  An
 * initial weight drawn from `rand()` is an arbitrary choice in [-1, 1].
 */
module Nn {
  import opened Values
  import opened Engine

  /** A neuron: nin weights and a bias, by arena index, and whether its
      output passes through relu.  Its input width nin is |weights|. */
  datatype Neuron = Neuron(weights: seq<nat>, bias: nat, nonlin: bool)

  /** A layer: its input width and its neurons; its output width nout is
      |neurons|. */
  datatype Layer = Layer(nin: nat, neurons: seq<Neuron>)

  /** A multi-layer perceptron: its layers, first to last. */
  datatype Mlp = Mlp(layers: seq<Layer>)

  // ---------------------------------------------------------------------
  // Shapes and parameter lists

  /** Every neuron of the layer takes the layer's input width. */
  predicate LayerShape(l: Layer)
  {
    forall i | 0 <= i < |l.neurons| :: |l.neurons[i].weights| == l.nin
  }

  /** Every layer is well shaped, and each layer after the first takes as
      many inputs as the layer before it has neurons. */
  predicate MlpShape(m: Mlp)
  {
    && (forall i | 0 <= i < |m.layers| :: LayerShape(m.layers[i]))
    && (forall i | 1 <= i < |m.layers| :: m.layers[i].nin == |m.layers[i - 1].neurons|)
  }

  /** A neuron's parameters: its weights in order, then its bias. */
  function NeuronParams(n: Neuron): seq<nat>
  {
    n.weights + [n.bias]
  }

  /** The parameters of a layer's first k neurons, neuron after neuron. */
  function LayerParams(neurons: seq<Neuron>, k: nat): seq<nat>
    requires k <= |neurons|
  {
    if k == 0 then [] else LayerParams(neurons, k - 1) + NeuronParams(neurons[k - 1])
  }

  /** How many parameters a layer has: nout * (nin + 1). */
  function LayerCount(l: Layer): nat
  {
    |l.neurons| * (l.nin + 1)
  }

  /** How many parameters the first k layers have together. */
  function ParamCount(layers: seq<Layer>, k: nat): nat
    requires k <= |layers|
  {
    if k == 0 then 0 else ParamCount(layers, k - 1) + LayerCount(layers[k - 1])
  }

  /** The parameters of the first k layers, layer after layer. */
  function MlpParams(layers: seq<Layer>, k: nat): seq<nat>
    requires k <= |layers|
  {
    if k == 0 then [] else MlpParams(layers, k - 1) + LayerParams(layers[k - 1].neurons, |layers[k - 1].neurons|)
  }

  /** In a well-shaped layer the first k neurons have k * (nin + 1)
      parameters. */
  lemma {:induction false} LayerParamsLength(neurons: seq<Neuron>, nin: nat, k: nat)
    requires forall i | 0 <= i < |neurons| :: |neurons[i].weights| == nin
    requires k <= |neurons|
    ensures |LayerParams(neurons, k)| == k * (nin + 1)
  {
    if k > 0 {
      LayerParamsLength(neurons, nin, k - 1);
      assert k * (nin + 1) == (k - 1) * (nin + 1) + (nin + 1);
    }
  }

  /** The parameters of the first k neurons begin those of the first m. */
  lemma {:induction false} LayerParamsPrefix(neurons: seq<Neuron>, k: nat, m: nat)
    requires k <= m <= |neurons|
    ensures LayerParams(neurons, k) <= LayerParams(neurons, m)
    decreases m - k
  {
    if k < m {
      LayerParamsPrefix(neurons, k, m - 1);
    }
  }

  /** In a well-shaped layer, neuron i's j-th parameter sits at slot
      i * (nin + 1) + j of the layer's list. */
  lemma LayerSlots(neurons: seq<Neuron>, nin: nat, i: nat, j: nat)
    requires forall k | 0 <= k < |neurons| :: |neurons[k].weights| == nin
    requires i < |neurons| && j <= nin
    ensures i * (nin + 1) + j < |LayerParams(neurons, |neurons|)|
    ensures LayerParams(neurons, |neurons|)[i * (nin + 1) + j] == NeuronParams(neurons[i])[j]
  {
    LayerParamsLength(neurons, nin, i);
    LayerParamsPrefix(neurons, i + 1, |neurons|);
    var off := |LayerParams(neurons, i)|;
    assert off == i * (nin + 1);
    assert LayerParams(neurons, i + 1)[off + j] == NeuronParams(neurons[i])[j];
  }

  /** The parameter list of an MLP has ParamCount entries. */
  lemma {:induction false} MlpParamsLength(layers: seq<Layer>, k: nat)
    requires k <= |layers|
    requires forall i | 0 <= i < |layers| :: LayerShape(layers[i])
    ensures |MlpParams(layers, k)| == ParamCount(layers, k)
  {
    if k > 0 {
      var l := layers[k - 1];
      MlpParamsLength(layers, k - 1);
      LayerParamsLength(l.neurons, l.nin, |l.neurons|);
    }
  }

  /** `neuron_parm_fun`: fills a fresh array of nin + 1 entries with the
      weights, then the bias. */
  method NeuronParmFun(n: Neuron) returns (parms: seq<nat>)
    ensures parms == NeuronParams(n)
    ensures |parms| == |n.weights| + 1 && parms[|n.weights|] == n.bias
  {
    var nin := |n.weights|;
    var a := new nat[nin + 1];
    var i := 0;
    while i < nin
      invariant 0 <= i <= nin
      invariant a[..i] == n.weights[..i]
    {
      a[i] := n.weights[i];
      i := i + 1;
    }
    a[nin] := n.bias;
    assert a[..nin] == n.weights;
    assert a[..] == a[..nin] + [a[nin]];
    parms := a[..];
  }

  /** Every index names a node of the arena. */
  predicate InArena(nodes: seq<Node>, idx: seq<nat>)
  {
    forall i | 0 <= i < |idx| :: idx[i] < |nodes|
  }

  /** `neuron_zero_grad`: the gradient of each of the neuron's parameters
      becomes 0 and every other gradient, and every node, stays as it was. */
  method NeuronZeroGrad(g: Graph, n: Neuron)
    requires g.Valid() && InArena(g.nodes, NeuronParams(n))
    modifies g`grad
    ensures g.Valid() && |g.grad| == old(|g.grad|)
    ensures forall x | 0 <= x < |g.grad| ::
      g.grad[x] == (if x in NeuronParams(n) then 0.0 else old(g.grad[x]))
  {
    var parms := NeuronParmFun(n);
    var i := 0;
    while i < |parms|
      invariant 0 <= i <= |parms|
      invariant g.Valid() && |g.grad| == old(|g.grad|)
      invariant forall x | 0 <= x < |g.grad| ::
        g.grad[x] == (if x in parms[..i] then 0.0 else old(g.grad[x]))
    {
      assert parms[..i + 1] == parms[..i] + [parms[i]];
      g.grad := g.grad[parms[i] := 0.0];
      i := i + 1;
    }
    assert parms[..i] == parms;
  }

  /** The pointer-copying loop both `layer_parm_fun` and `mlp_parm_fun`
      run: src goes to slots start .. start + |src| of a, and every other
      slot keeps what it held. */
  method CopyInto(a: array<nat>, start: nat, src: seq<nat>)
    requires start + |src| <= a.Length
    modifies a
    ensures a[..start + |src|] == old(a[..start]) + src
    ensures a[start + |src|..] == old(a[start + |src|..])
  {
    var j := 0;
    while j < |src|
      invariant 0 <= j <= |src|
      invariant a[..start + j] == old(a[..start]) + src[..j]
      invariant a[start + j..] == old(a[start + j..])
    {
      a[start + j] := src[j];
      assert a[..start + j + 1] == a[..start + j] + [src[j]];
      assert src[..j + 1] == src[..j] + [src[j]];
      j := j + 1;
    }
    assert src[..j] == src;
  }

  /** `layer_parm_fun`: copies parameter j of neuron i to slot
      i * (nin + 1) + j of a fresh array of nout * (nin + 1) entries; the
      result is the neurons' parameter lists one after the other (see
      `LayerSlots` for the slot of each parameter). */
  method LayerParmFun(l: Layer) returns (parms: seq<nat>)
    requires LayerShape(l)
    ensures parms == LayerParams(l.neurons, |l.neurons|)
  {
    var per := l.nin + 1;
    var nout := |l.neurons|;
    var total := per * nout;
    LayerParamsLength(l.neurons, l.nin, nout);
    assert total == |LayerParams(l.neurons, nout)|;
    var a := new nat[total];
    var i := 0;
    while i < nout
      invariant 0 <= i <= nout
      invariant Filled(a[..], LayerParams(l.neurons, i))
    {
      var nParms := NeuronParmFun(l.neurons[i]);
      LayerStep(l.neurons, l.nin, i);
      CopyInto(a, i * per, nParms);
      i := i + 1;
    }
    assert a[..] == a[..total];
    parms := a[..];
  }

  /** The first |p| slots of s hold p. */
  predicate Filled(s: seq<nat>, p: seq<nat>)
  {
    |p| <= |s| && s[..|p|] == p
  }

  /** The step of `layer_parm_fun`'s loop: neuron i's parameters start at
      slot i * (nin + 1), and they fit in the layer's nout * (nin + 1)
      slots. */
  lemma LayerStep(neurons: seq<Neuron>, nin: nat, i: nat)
    requires forall k | 0 <= k < |neurons| :: |neurons[k].weights| == nin
    requires i < |neurons|
    ensures i * (nin + 1) == |LayerParams(neurons, i)|
    ensures |LayerParams(neurons, i + 1)| <= |LayerParams(neurons, |neurons|)|
  {
    LayerParamsLength(neurons, nin, i);
    LayerParamsPrefix(neurons, i + 1, |neurons|);
  }

  /** `mlp_parm_fun`: counts the parameters of all layers, then copies each
      layer's list into one array at a running offset; the offset ends at
      the count, and the result is the layers' lists one after the other. */
  method MlpParmFun(m: Mlp) returns (parms: seq<nat>)
    requires forall i | 0 <= i < |m.layers| :: LayerShape(m.layers[i])
    ensures |parms| == ParamCount(m.layers, |m.layers|)
    ensures parms == MlpParams(m.layers, |m.layers|)
  {
    var layers := m.layers;
    var totalCount := 0;
    var i := 0;
    while i < |layers|
      invariant 0 <= i <= |layers|
      invariant totalCount == ParamCount(layers, i)
    {
      totalCount := totalCount + LayerCount(layers[i]);
      i := i + 1;
    }
    MlpParamsLength(layers, |layers|);
    var all := new nat[totalCount];
    var offset := 0;
    i := 0;
    while i < |layers|
      invariant 0 <= i <= |layers|
      invariant offset == |MlpParams(layers, i)| <= totalCount
      invariant all[..offset] == MlpParams(layers, i)
    {
      var lParms := LayerParmFun(layers[i]);
      var count := LayerCount(layers[i]);
      MlpStep(layers, i);
      CopyInto(all, offset, lParms);
      offset := offset + count;
      i := i + 1;
    }
    assert all[..] == all[..offset];
    parms := all[..];
  }

  /** The step of `mlp_parm_fun`'s copying loop: layer i's list has its
      LayerCount entries, follows the lists of the layers before it, and
      fits within the total count. */
  lemma MlpStep(layers: seq<Layer>, i: nat)
    requires i < |layers|
    requires forall k | 0 <= k < |layers| :: LayerShape(layers[k])
    ensures |LayerParams(layers[i].neurons, |layers[i].neurons|)| == LayerCount(layers[i])
    ensures MlpParams(layers, i + 1) == MlpParams(layers, i) + LayerParams(layers[i].neurons, |layers[i].neurons|)
    ensures |MlpParams(layers, i + 1)| <= ParamCount(layers, |layers|)
  {
    LayerParamsLength(layers[i].neurons, layers[i].nin, |layers[i].neurons|);
    MlpParamsPrefix(layers, i + 1, |layers|);
    MlpParamsLength(layers, |layers|);
  }

  /** The parameters of the first k layers begin the list of the first m. */
  lemma {:induction false} MlpParamsPrefix(layers: seq<Layer>, k: nat, m: nat)
    requires k <= m <= |layers|
    ensures MlpParams(layers, k) <= MlpParams(layers, m)
    decreases m - k
  {
    if k < m {
      MlpParamsPrefix(layers, k, m - 1);
    }
  }

  // ---------------------------------------------------------------------
  // Building a network

  /** The indices start, start + 1, ..., start + k - 1. */
  function Range(start: nat, k: nat): seq<nat>
  {
    seq(k, i => start + i)
  }

  /** Consecutive runs of indices join into one run. */
  lemma RangeJoin(start: nat, k: nat, m: nat)
    ensures Range(start, k) + Range(start + k, m) == Range(start, k + m)
  {
  }

  /** The run from start to end is the run from start to mid followed by
      the run from mid to end. */
  lemma RangeSplit(start: nat, mid: nat, end: nat)
    requires start <= mid <= end
    ensures Range(start, mid - start) + Range(mid, end - mid) == Range(start, end - start)
  {
    RangeJoin(start, mid - start, end - mid);
  }

  /** The arena (nodes, grad) is (nodes0, grad0) followed by new nodes with
      gradient 0: the earlier nodes and their gradients are untouched. */
  predicate Grown(nodes0: seq<Node>, grad0: seq<real>, nodes: seq<Node>, grad: seq<real>)
  {
    && |nodes0| <= |nodes| && |grad0| == |nodes0| && |grad| == |nodes|
    && (forall k | 0 <= k < |nodes0| :: nodes[k] == nodes0[k] && grad[k] == grad0[k])
    && (forall k | |nodes0| <= k < |nodes| :: grad[k] == 0.0)
  }

  /** Growing in two steps is growing. */
  lemma GrownJoin(nodes0: seq<Node>, grad0: seq<real>, nodes1: seq<Node>, grad1: seq<real>,
                  nodes2: seq<Node>, grad2: seq<real>)
    requires Grown(nodes0, grad0, nodes1, grad1)
    requires Grown(nodes1, grad1, nodes2, grad2)
    ensures Grown(nodes0, grad0, nodes2, grad2)
  {
  }

  /** The arena (nodes, grad) is (nodes0, grad0) followed by fresh leaves,
      each holding a value in [-1, 1]. */
  predicate FreshLeaves(nodes0: seq<Node>, grad0: seq<real>, nodes: seq<Node>, grad: seq<real>)
  {
    && Grown(nodes0, grad0, nodes, grad)
    && forall k | |nodes0| <= k < |nodes| ::
         nodes[k].children == [] && nodes[k].op == Leaf && -1.0 <= nodes[k].data <= 1.0
  }

  /** Fresh leaves appended in two steps are fresh leaves appended in one. */
  lemma FreshJoin(nodes0: seq<Node>, grad0: seq<real>, nodes1: seq<Node>, grad1: seq<real>,
                  nodes2: seq<Node>, grad2: seq<real>)
    requires FreshLeaves(nodes0, grad0, nodes1, grad1)
    requires FreshLeaves(nodes1, grad1, nodes2, grad2)
    ensures FreshLeaves(nodes0, grad0, nodes2, grad2)
  {
    GrownJoin(nodes0, grad0, nodes1, grad1, nodes2, grad2);
  }

  /** `value_new` appends one fresh leaf. */
  lemma NewLeaf(nodes0: seq<Node>, grad0: seq<real>, x: real)
    requires |grad0| == |nodes0| && -1.0 <= x <= 1.0
    ensures FreshLeaves(nodes0, grad0, nodes0 + [Node(x, [], Leaf)], grad0 + [0.0])
  {
  }

  /** `create_neuron`: nin fresh leaves holding random weights in [-1, 1],
      then a fresh leaf holding the bias 0.  The weights and the bias are
      exactly the new nodes, in the order they were created. */
  method CreateNeuron(g: Graph, nin: nat, nonlin: bool) returns (n: Neuron)
    requires g.Valid()
    modifies g
    ensures g.Valid()
    ensures |n.weights| == nin && n.nonlin == nonlin
    ensures |g.nodes| == old(|g.nodes|) + nin + 1
    ensures NeuronParams(n) == Range(old(|g.nodes|), nin + 1)
    ensures FreshLeaves(old(g.nodes), old(g.grad), g.nodes, g.grad)
    ensures n.bias < |g.nodes| && g.nodes[n.bias].data == 0.0
  {
    ghost var start := |g.nodes|;
    NoLeaves(g.nodes, g.grad);
    var weights: seq<nat> := [];
    var i := 0;
    while i < nin
      invariant 0 <= i <= nin
      invariant g.Valid()
      invariant |g.nodes| == start + i
      invariant weights == Range(start, i)
      invariant FreshLeaves(old(g.nodes), old(g.grad), g.nodes, g.grad)
    {
      var random: real :| -1.0 <= random <= 1.0;
      ghost var nodes1, grad1 := g.nodes, g.grad;
      var w := g.ValueNew(random);
      NewLeaf(nodes1, grad1, random);
      FreshJoin(old(g.nodes), old(g.grad), nodes1, grad1, g.nodes, g.grad);
      RangeJoin(start, i, 1);
      weights := weights + [w];
      i := i + 1;
    }
    ghost var nodes1, grad1 := g.nodes, g.grad;
    var bias := g.ValueNew(0.0);
    NewLeaf(nodes1, grad1, 0.0);
    FreshJoin(old(g.nodes), old(g.grad), nodes1, grad1, g.nodes, g.grad);
    RangeJoin(start, nin, 1);
    n := Neuron(weights, bias, nonlin);
  }

  /** An arena extends itself by no leaves. */
  lemma NoLeaves(nodes: seq<Node>, grad: seq<real>)
    requires |grad| == |nodes|
    ensures FreshLeaves(nodes, grad, nodes, grad)
  {
  }

  /** Every neuron's bias node holds 0. */
  predicate BiasesZero(nodes: seq<Node>, neurons: seq<Neuron>)
  {
    forall j | 0 <= j < |neurons| :: neurons[j].bias < |nodes| && nodes[neurons[j].bias].data == 0.0
  }

  /** `create_layer`: nout neurons of nin inputs each, created one after the
      other.  The layer's parameter list is exactly the new nodes. */
  method CreateLayer(g: Graph, nin: nat, nout: nat, nonlin: bool) returns (l: Layer)
    requires g.Valid()
    modifies g
    ensures g.Valid()
    ensures l.nin == nin && |l.neurons| == nout && LayerShape(l)
    ensures forall j | 0 <= j < nout :: l.neurons[j].nonlin == nonlin
    ensures FreshLeaves(old(g.nodes), old(g.grad), g.nodes, g.grad)
    ensures LayerParams(l.neurons, nout) == Range(old(|g.nodes|), |g.nodes| - old(|g.nodes|))
    ensures BiasesZero(g.nodes, l.neurons)
  {
    NoLeaves(g.nodes, g.grad);
    var neurons: seq<Neuron> := [];
    var i := 0;
    while i < nout
      invariant 0 <= i <= nout
      invariant g.Valid()
      invariant |neurons| == i
      invariant LayerBuilding(old(g.nodes), old(g.grad), nin, nonlin, neurons, g.nodes, g.grad)
    {
      ghost var nodes1, grad1 := g.nodes, g.grad;
      var n := CreateNeuron(g, nin, nonlin);
      LayerGrowStep(old(g.nodes), old(g.grad), nin, nonlin, neurons, nodes1, grad1, n, g.nodes, g.grad);
      neurons := neurons + [n];
      i := i + 1;
    }
    l := Layer(nin, neurons);
  }

  /** Part-way through `create_layer`: the neurons created so far take nin
      inputs and carry the layer's relu flag, the arena has grown by fresh
      leaves that are exactly their parameters, and every bias holds 0. */
  predicate LayerBuilding(nodes0: seq<Node>, grad0: seq<real>, nin: nat, nonlin: bool,
                          neurons: seq<Neuron>, nodes: seq<Node>, grad: seq<real>)
  {
    && (forall k | 0 <= k < |neurons| :: |neurons[k].weights| == nin && neurons[k].nonlin == nonlin)
    && FreshLeaves(nodes0, grad0, nodes, grad)
    && LayerParams(neurons, |neurons|) == Range(|nodes0|, |nodes| - |nodes0|)
    && BiasesZero(nodes, neurons)
  }

  /** A neuron created on fresh leaves appended to the arena moves
      `create_layer`'s loop on by one neuron. */
  lemma LayerGrowStep(nodes0: seq<Node>, grad0: seq<real>, nin: nat, nonlin: bool, neurons: seq<Neuron>,
                      nodes1: seq<Node>, grad1: seq<real>, n: Neuron, nodes2: seq<Node>, grad2: seq<real>)
    requires LayerBuilding(nodes0, grad0, nin, nonlin, neurons, nodes1, grad1)
    requires |n.weights| == nin && n.nonlin == nonlin
    requires FreshLeaves(nodes1, grad1, nodes2, grad2)
    requires NeuronParams(n) == Range(|nodes1|, |nodes2| - |nodes1|)
    requires n.bias < |nodes2| && nodes2[n.bias].data == 0.0
    ensures LayerBuilding(nodes0, grad0, nin, nonlin, neurons + [n], nodes2, grad2)
  {
    LayerBuildStep(neurons, n, |nodes0|, |nodes1|, |nodes2|);
    FreshJoin(nodes0, grad0, nodes1, grad1, nodes2, grad2);
    BiasesKept(nodes1, nodes2, neurons, n);
    assert (neurons + [n])[|neurons|] == n;
  }

  /** The step of `create_layer`'s loop: the parameters of a neuron created
      right after the first neurons extend the layer's run of new nodes. */
  lemma LayerBuildStep(neurons: seq<Neuron>, n: Neuron, start: nat, mid: nat, end: nat)
    requires start <= mid <= end
    requires LayerParams(neurons, |neurons|) == Range(start, mid - start)
    requires NeuronParams(n) == Range(mid, end - mid)
    ensures LayerParams(neurons + [n], |neurons| + 1) == Range(start, end - start)
  {
    var ns := neurons + [n];
    assert LayerParams(ns, |neurons| + 1) == LayerParams(neurons, |neurons|) + NeuronParams(n) by {
      LayerParamsSame(neurons, ns, |neurons|);
      assert ns[|neurons|] == n;
    }
    RangeSplit(start, mid, end);
  }

  /** Growing the arena keeps the earlier biases, and the new neuron's bias
      joins them. */
  lemma BiasesKept(nodes1: seq<Node>, nodes2: seq<Node>, neurons: seq<Neuron>, n: Neuron)
    requires |nodes1| <= |nodes2| && forall k | 0 <= k < |nodes1| :: nodes2[k] == nodes1[k]
    requires BiasesZero(nodes1, neurons)
    requires n.bias < |nodes2| && nodes2[n.bias].data == 0.0
    ensures BiasesZero(nodes2, neurons + [n])
  {
  }

  /** The parameters of the first k neurons depend on those neurons only. */
  lemma {:induction false} LayerParamsSame(a: seq<Neuron>, b: seq<Neuron>, k: nat)
    requires k <= |a| && k <= |b| && a[..k] == b[..k]
    ensures LayerParams(a, k) == LayerParams(b, k)
  {
    if k > 0 {
      assert a[..k - 1] == b[..k - 1];
      assert a[k - 1] == a[..k][k - 1];
      LayerParamsSame(a, b, k - 1);
    }
  }

  /** The input width of layer i of an MLP built from nin and nouts. */
  function LayerNin(nin: nat, nouts: seq<nat>, i: nat): nat
    requires i < |nouts|
  {
    if i == 0 then nin else nouts[i - 1]
  }

  /** Layer k as `create_mlp` builds it from nin and nouts: input width
      LayerNin, nouts[k] neurons of that width, and relu on every layer but
      the last. */
  predicate LayerBuilt(l: Layer, nin: nat, nouts: seq<nat>, k: nat)
    requires k < |nouts|
  {
    && l.nin == LayerNin(nin, nouts, k) && |l.neurons| == nouts[k] && LayerShape(l)
    && forall j | 0 <= j < |l.neurons| :: l.neurons[j].nonlin == (k != |nouts| - 1)
  }

  /** The first |layers| layers of an MLP built from nin and nouts. */
  predicate BuiltPrefix(layers: seq<Layer>, nin: nat, nouts: seq<nat>)
  {
    |layers| <= |nouts| && forall k | 0 <= k < |layers| :: LayerBuilt(layers[k], nin, nouts, k)
  }

  /** `create_mlp`: one layer per entry of nouts; the first takes nin
      inputs and each later one as many as the layer before has neurons;
      every layer but the last applies relu.  The MLP's parameter list is
      exactly the new nodes, and every bias holds 0. */
  method CreateMlp(g: Graph, nin: nat, nouts: seq<nat>) returns (m: Mlp)
    requires g.Valid()
    modifies g
    ensures g.Valid()
    ensures |m.layers| == |nouts| && BuiltPrefix(m.layers, nin, nouts) && MlpShape(m)
    ensures FreshLeaves(old(g.nodes), old(g.grad), g.nodes, g.grad)
    ensures MlpParams(m.layers, |nouts|) == Range(old(|g.nodes|), |g.nodes| - old(|g.nodes|))
    ensures LayerBiasesZero(g.nodes, m.layers)
  {
    NoLeaves(g.nodes, g.grad);
    var layers: seq<Layer> := [];
    var currentNin := nin;
    var i := 0;
    while i < |nouts|
      invariant 0 <= i <= |nouts|
      invariant g.Valid()
      invariant |layers| == i
      invariant i < |nouts| ==> currentNin == LayerNin(nin, nouts, i)
      invariant MlpBuilding(old(g.nodes), old(g.grad), nin, nouts, layers, g.nodes, g.grad)
    {
      var isLast := i == |nouts| - 1;
      ghost var nodes1, grad1 := g.nodes, g.grad;
      var l := CreateLayer(g, currentNin, nouts[i], !isLast);
      MlpGrowStep(old(g.nodes), old(g.grad), nin, nouts, layers, nodes1, grad1, l, g.nodes, g.grad);
      layers := layers + [l];
      currentNin := nouts[i];
      i := i + 1;
    }
    m := Mlp(layers);
    BuiltShape(layers, nin, nouts);
  }

  /** Part-way through `create_mlp`: the layers built so far are the
      first layers of the MLP, the arena has grown by fresh leaves that are
      exactly their parameters, and every bias holds 0. */
  predicate MlpBuilding(nodes0: seq<Node>, grad0: seq<real>, nin: nat, nouts: seq<nat>,
                        layers: seq<Layer>, nodes: seq<Node>, grad: seq<real>)
  {
    && BuiltPrefix(layers, nin, nouts)
    && FreshLeaves(nodes0, grad0, nodes, grad)
    && MlpParams(layers, |layers|) == Range(|nodes0|, |nodes| - |nodes0|)
    && LayerBiasesZero(nodes, layers)
  }

  /** A layer built in place as the next layer of the MLP, on fresh leaves
      appended to the arena, moves `create_mlp`'s loop on by one layer. */
  lemma MlpGrowStep(nodes0: seq<Node>, grad0: seq<real>, nin: nat, nouts: seq<nat>, layers: seq<Layer>,
                    nodes1: seq<Node>, grad1: seq<real>, l: Layer, nodes2: seq<Node>, grad2: seq<real>)
    requires MlpBuilding(nodes0, grad0, nin, nouts, layers, nodes1, grad1) && |layers| < |nouts|
    requires LayerBuilt(l, nin, nouts, |layers|)
    requires FreshLeaves(nodes1, grad1, nodes2, grad2)
    requires LayerParams(l.neurons, |l.neurons|) == Range(|nodes1|, |nodes2| - |nodes1|)
    requires BiasesZero(nodes2, l.neurons)
    ensures MlpBuilding(nodes0, grad0, nin, nouts, layers + [l], nodes2, grad2)
  {
    var ls := layers + [l];
    assert MlpParams(ls, |ls|) == Range(|nodes0|, |nodes2| - |nodes0|) by {
      MlpBuildStep(layers, l, |nodes0|, |nodes1|, |nodes2|);
    }
    assert FreshLeaves(nodes0, grad0, nodes2, grad2) by {
      FreshJoin(nodes0, grad0, nodes1, grad1, nodes2, grad2);
    }
    assert BuiltPrefix(ls, nin, nouts) by {
      BuiltStep(layers, l, nin, nouts);
    }
    assert LayerBiasesZero(nodes2, ls) by {
      LayerBiasesKept(nodes1, nodes2, layers, l);
    }
  }

  /** Every neuron of every layer has a bias node holding 0. */
  predicate LayerBiasesZero(nodes: seq<Node>, layers: seq<Layer>)
  {
    forall k | 0 <= k < |layers| :: BiasesZero(nodes, layers[k].neurons)
  }

  /** Growing the arena keeps the earlier layers' biases, and the new
      layer's biases join them. */
  lemma LayerBiasesKept(nodes1: seq<Node>, nodes2: seq<Node>, layers: seq<Layer>, l: Layer)
    requires |nodes1| <= |nodes2| && forall k | 0 <= k < |nodes1| :: nodes2[k] == nodes1[k]
    requires LayerBiasesZero(nodes1, layers)
    requires BiasesZero(nodes2, l.neurons)
    ensures LayerBiasesZero(nodes2, layers + [l])
  {
    forall k | 0 <= k < |layers|
      ensures BiasesZero(nodes2, layers[k].neurons)
    {
      assert BiasesZero(nodes1, layers[k].neurons);
    }
    assert (layers + [l])[|layers|] == l;
  }

  /** The step of `create_mlp`'s loop: the parameters of a layer created
      right after the first layers extend the MLP's run of new nodes. */
  lemma MlpBuildStep(layers: seq<Layer>, l: Layer, start: nat, mid: nat, end: nat)
    requires start <= mid <= end
    requires MlpParams(layers, |layers|) == Range(start, mid - start)
    requires LayerParams(l.neurons, |l.neurons|) == Range(mid, end - mid)
    ensures MlpParams(layers + [l], |layers| + 1) == Range(start, end - start)
  {
    var ls := layers + [l];
    assert MlpParams(ls, |layers| + 1) == MlpParams(layers, |layers|) + LayerParams(l.neurons, |l.neurons|) by {
      MlpParamsSame(layers, ls, |layers|);
      assert ls[|layers|] == l;
    }
    RangeSplit(start, mid, end);
  }

  /** The parameters of the first k layers depend on those layers only. */
  lemma {:induction false} MlpParamsSame(a: seq<Layer>, b: seq<Layer>, k: nat)
    requires k <= |a| && k <= |b| && a[..k] == b[..k]
    ensures MlpParams(a, k) == MlpParams(b, k)
  {
    if k > 0 {
      assert a[..k - 1] == b[..k - 1];
      assert a[k - 1] == a[..k][k - 1];
      MlpParamsSame(a, b, k - 1);
    }
  }

  /** One more layer built in place extends the prefix. */
  lemma BuiltStep(layers: seq<Layer>, l: Layer, nin: nat, nouts: seq<nat>)
    requires BuiltPrefix(layers, nin, nouts) && |layers| < |nouts|
    requires LayerBuilt(l, nin, nouts, |layers|)
    ensures BuiltPrefix(layers + [l], nin, nouts)
  {
    var ls := layers + [l];
    forall k | 0 <= k < |ls|
      ensures LayerBuilt(ls[k], nin, nouts, k)
    {
      if k < |layers| {
        assert ls[k] == layers[k];
      }
    }
  }

  /** The layers built from nin and nouts chain: each takes as many inputs as
      the one before has neurons. */
  lemma BuiltShape(layers: seq<Layer>, nin: nat, nouts: seq<nat>)
    requires BuiltPrefix(layers, nin, nouts)
    ensures MlpShape(Mlp(layers))
  {
    forall i | 1 <= i < |layers|
      ensures layers[i].nin == |layers[i - 1].neurons|
    {
      assert LayerBuilt(layers[i], nin, nouts, i);
      assert LayerBuilt(layers[i - 1], nin, nouts, i - 1);
    }
  }
}
