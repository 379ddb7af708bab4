# Scalar autograd engine and MLP, in Dafny

This project models a small reverse-mode automatic-differentiation engine
written in C (`engine.c`) and the toy neural network built on it (`nn.c`),
and proves what they compute.

**The engine.**
- A `Value` node holds:
  - a forward value `data`;
  - a gradient `grad`;
  - its operands (`children`);
  - the operation that produced it.
- Here the nodes live in an arena: the class `Engine.Graph` holds `nodes: seq<Node>` and `grad: seq<real>`.
- A `Value*` is an index into that arena. A constructor can only name nodes that already exist, so every operand index is smaller than its consumer's. The arena order is therefore a topological order, and the graph is acyclic by construction (`Values.WellFormed`).
- Each constructor (`value_new`, `valueAdd`, …, `valueScalarTruediv`) is a method that appends a node with gradient 0. `valueScalarTruediv` appends two: the constant leaf, then the quotient.
  - Every constructor's contract gives the whole new arena, except `valueTruedivScalar`'s.
  - `valueTruedivScalar`'s contract gives the new node's operand and operation (multiply by 1/k). Its value follows from the arena's well-formedness.
- Each backward rule (`addBackward`, …, `reluBackward`) is a method that changes only `grad`. It is proved to add, into each operand, the operation's local derivative times the node's gradient (`Backprop.Fired`).
- `build_topo` is a recursive method over the `topo`/`visited` lists. It is proved to:
  - only append to the caller's lists;
  - list every node reachable from the root exactly once, operands before consumers, with the root last.
- `backward` is a loop over that list in reverse. It is proved to leave every node holding its adjoint (`Backprop.Adjoint`):
  - the root ends with exactly 1;
  - every other node ends with its earlier gradient plus the sum, over its reachable consumers, of the local derivative times the consumer's final gradient.

**The network.**
- `Nn` has a `Neuron` (weights and bias, as arena indices, and a relu flag), a `Layer` and an `Mlp`. These are values: the C code never changes them after creation.
- The parameter lists (`*_parm_fun`) are loops proved equal to specification functions that concatenate parameters neuron by neuron and layer by layer.
- `neuron_zero_grad` is proved to clear exactly the neuron's parameter gradients.
- The `create_*` functions are proved to append fresh leaves and build the documented shape:
  - layer i takes the previous layer's width;
  - every layer but the last applies relu;
  - each bias starts at 0;
  - the parameter list is exactly the run of new nodes.
- `Forward` proves that `call_neuron`, `call_layer` and `call_mlp` build nodes whose values are the network's output (`NeuronEval`, `LayerEval`, `MlpEval`) on the values of the inputs.

Values are modelled over `real`, so gradient formulas hold exactly. Where IEEE 754 would produce `inf`/`nan`, a precondition excludes the case (see "Left out").

**Once a gradient passes through an inner node, a second `backward` does not double the gradients.** One might expect a second `backward` without clearing the gradients to double them. On a graph at least two operations deep the code does not:
- `backward` overwrites the root's gradient with 1 (engine.c:50);
- every other node keeps what it held and accumulates on top;
- so the gradient left on an inner node by the first pass is sent down again in the second.

The model follows the code. `Rules.SecondPassNotDoubled` exhibits a two-operation chain where the first pass gives the input gradient 6 and the second gives 18, not 12. On a graph one operation deep there is no inner node, so the second pass does double: `Rules.SecondPassDoublesShallow` shows u and r = u·2, where u's gradient goes from 2 to 4.

## Model

| member | source | states |
|---|---|---|
| Values.NatPow | engine.c:91-94 | a natural power of a non-zero base is non-zero, and the power 0 is 1 |
| Values.Power | engine.c:174 | `pow` with an integral exponent: a non-zero base gives a non-zero power, the power 0 is 1, the power 1 is the base, and a negative power is the reciprocal of the natural power |
| Values.ReluOf | engine.c:187-199 | relu's value is max(a, 0): non-negative, at least a, and either a or 0 |
| Values.NodeOkExtend | engine.c:121-132 | a node stays well formed however the arena grows after it, because it refers only to earlier nodes |
| Values.WellFormedAppend | engine.c:7-18 | appending a node whose operands exist and whose value matches its operation keeps every node of the arena well formed |
| Values.WeightByPosition | engine.c:59-63 | a rule's total weight on a node is the sum of the local derivatives of the operand positions holding it, so a node used twice gets both |
| Values.WeightFromAbsent | engine.c:59-119 | operand positions that do not hold a node send it nothing |
| Values.WeightOnlyToChildren | engine.c:59-119 | a rule sends nothing to a node that is not one of its operands |
| Values.WeightBelow | engine.c:121-259 | no rule sends anything to its own node or to a later node |
| Topo.OrderedDistinct | engine.c:29-39 | an operand-first order produced by the sort never lists a node twice |
| Topo.SuffixSplit | engine.c:52-56 | the reverse walk's remaining set gains exactly the node at position i, which was not in it |
| Topo.OrderedAt | engine.c:29-39 | in the sorted order, every operand of a node appears at an earlier position |
| Topo.ReachBelow | engine.c:29-39 | everything reachable from a node lies at or below it in the arena |
| Topo.ReachClosed | engine.c:35-37 | an operand of a reachable node is reachable |
| Topo.ReachInChild | engine.c:35-37 | whatever an operand reaches, its consumer reaches |
| Topo.ClosedHoldsReach | engine.c:29-39 | a set that holds v and is closed under operands holds everything v reaches |
| Topo.OrderedClosed | engine.c:29-39 | the nodes of an operand-first order are closed under operands |
| Topo.SeenCovered | engine.c:31-32 | a node already visited and no longer on the descent has all it reaches in `topo`, so skipping it loses nothing |
| Topo.DescentAbove | engine.c:34-37 | during the descent into operand i, every node on the current descent path lies above that operand |
| Topo.FinishVisit | engine.c:38 | appending v after its operands' sub-sorts keeps the order operand-first and adds exactly what v reaches |
| Topo.IsVisited | engine.c:20-27 | the scan answers true exactly when v is in the visited list |
| Topo.AppendOrdered | engine.c:38 | appending a new node whose operands are all listed keeps the order operand-first |
| Topo.BuildTopo | engine.c:29-39 | the caller's `topo` and `visited` stay as prefixes, since the lists are only appended to. `topo` gains exactly the nodes v reaches, each once, operands first, with v last when it was not yet visited. `visited` gains the same nodes, and both lists grow by the same count |
| Topo.OperandStep | engine.c:35-37 | sorting operand i into the lists extends the sorted set by what that operand reaches, and keeps the order operand-first and the caller's entries as a prefix |
| Topo.VisitOperands | engine.c:34-37 | once v is marked visited, sorting its operands in order leaves `topo` holding the caller's entries followed by exactly what the operands reach, operands first; `visited` holds the caller's entries, v, and the same nodes |
| Backprop.SumEmpty | engine.c:50 | before any rule fires, no node has received any contribution |
| Backprop.SumInsert | engine.c:52-56 | firing one more consumer adds exactly its weight times its gradient |
| Backprop.SumAgree | engine.c:52-56 | consumers with no weight on a node do not change what it receives |
| Backprop.PartwayStart | engine.c:50 | at the start of the reverse walk every node holds its old gradient, except the root, which holds 1 |
| Backprop.PartwayDone | engine.c:52-56 | once every reachable consumer has fired, every node holds its adjoint |
| Backprop.ConsumersLater | engine.c:52-56 | a reachable consumer not yet fired in the reverse walk sends nothing to the node about to fire |
| Backprop.ReadyToFire | engine.c:52-56 | when a node fires, its gradient is already final, because all of its reachable consumers have fired |
| Backprop.BackwardStep | engine.c:53-54 | firing the next node of the reverse order extends the fired set by that node, with every gradient consistent |
| Backprop.FireFinal | engine.c:53-54 | firing a consumer whose gradient is final adds it to the fired set |
| Backprop.StepAt | engine.c:53-54 | one node's gradient across a firing is its partial sum with that consumer's contribution added |
| Backprop.LeafFired | engine.c:53 | a leaf has no rule, and leaving every gradient unchanged is its firing |
| Backprop.UnaryFired | engine.c:64-68 | a one-operand rule that adds its local derivative times the node's gradient into the operand fires correctly |
| Backprop.BinaryFired | engine.c:59-63 | a two-operand rule that adds into the first operand and then the second fires correctly, also when both operands are one node |
| Backprop.AdjointRoot | engine.c:50 | after the pass the root's gradient is exactly 1, whatever it held before |
| Backprop.AdjointUnreached | engine.c:41-57 | a node the root does not reach keeps its gradient |
| Engine.Graph.Push | engine.c:7-18 | appending a well-formed node adds it with gradient 0 at the next index and changes nothing else |
| Engine.Graph.ValueNew | engine.c:7-18 | a fresh leaf holds x, with gradient 0, no operands and no rule, and nothing else changes |
| Engine.Graph.ValueAdd | engine.c:121-132 | a new node a + b with operands [a, b] and gradient 0; operands untouched |
| Engine.Graph.ValueAddScalar | engine.c:133-143 | a new node a + k with operand [a] and gradient 0 |
| Engine.Graph.ValueMul | engine.c:145-157 | a new node a * b with operands [a, b] and gradient 0 |
| Engine.Graph.ValueMulScalar | engine.c:159-170 | a new node a * k with operand [a], keeping k for its rule |
| Engine.Graph.ValuePow | engine.c:172-186 | a new node a^n with operand [a], keeping n for its rule |
| Engine.Graph.Relu | engine.c:187-199 | a new node max(a, 0) with operand [a] |
| Engine.Graph.ValueNeg | engine.c:201-205 | negation is a times the constant -1: value -a, rule mulScalar(-1) |
| Engine.Graph.ValueSub | engine.c:206-219 | a new node a - b with operands [a, b] |
| Engine.Graph.ValueSubScalar | engine.c:220-223 | subtracting k is adding the constant -k: value a - k, rule addScalar(-k) |
| Engine.Graph.ValueTruediv | engine.c:225-238 | a new node a / b with operands [a, b], for a non-zero divisor |
| Engine.Graph.ValueTruedivScalar | engine.c:239-243 | dividing by k is multiplying by the constant k^-1 = 1/k: operand [a], rule mulScalar(1/k) |
| Engine.Graph.ValueScalarTruediv | engine.c:245-259 | a fresh leaf c is created first, then c / b with operands [that leaf, b]; both get gradient 0 |
| Engine.Graph.AddBackward | engine.c:59-63 | both operands receive the node's gradient, twice when they are the same node; nothing else changes |
| Engine.Graph.AddScalarBackward | engine.c:64-68 | the operand receives the node's gradient |
| Engine.Graph.SubBackward | engine.c:70-74 | the first operand receives the node's gradient and the second loses it |
| Engine.Graph.MulBackward | engine.c:76-83 | each operand receives the other's value times the node's gradient |
| Engine.Graph.MulScalarBackward | engine.c:84-89 | the operand receives the stored constant times the node's gradient |
| Engine.Graph.PowBackward | engine.c:91-94 | the operand receives n * a^(n-1) times the node's gradient |
| Engine.Graph.DivBackward | engine.c:96-103 | a receives 1/b and b receives -a/b^2, each times the node's gradient |
| Engine.Graph.ScalarDivBackward | engine.c:105-112 | only the divisor receives -c/b^2 times the node's gradient; the constant leaf is untouched |
| Engine.Graph.ReluBackward | engine.c:114-119 | the operand receives the node's gradient when the output is positive, nothing otherwise |
| Engine.Graph.FireRule | engine.c:53-54 | dispatching on the node's operation fires its rule, and a leaf fires nothing |
| Engine.Graph.Backward | engine.c:41-57 | for at most 1024 reachable nodes, every node ends holding its adjoint: the root exactly 1; every other node its old gradient plus, over each reachable consumer, the local derivative times the consumer's final gradient; unreached nodes unchanged |
| Rules.FiredOnlyOperands | engine.c:59-119 | a rule changes no gradient but its operands': not its own node's and not any other |
| Rules.AddWeights | engine.c:59-63 | add weighs each operand 1, and 2 when both operands are one node |
| Rules.AddScalarWeight | engine.c:64-68 | addScalar weighs its operand 1 |
| Rules.SubWeights | engine.c:70-74 | sub weighs the first operand 1 and the second -1, and 0 when both are one node |
| Rules.MulWeights | engine.c:76-83 | mul weighs each operand by the other's value, and 2a when both are one node a |
| Rules.MulScalarWeight | engine.c:84-89 | mulScalar weighs its operand by the stored constant |
| Rules.PowWeight | engine.c:91-94 | pow weighs its operand n * a^(n-1) |
| Rules.DivWeights | engine.c:96-103 | div weighs a by 1/b and b by -a/b^2, with b non-zero |
| Rules.ScalarDivWeights | engine.c:105-112 | scalarDiv gives its constant leaf weight 0 and the divisor -c/b^2 |
| Rules.ReluWeight | engine.c:114-119 | relu weighs its operand 1 when the output is positive and 0 otherwise, so 0 for input 0 |
| Rules.SecondPassNotDoubled | engine.c:41-57 | on a two-operation chain a second pass does not double the first pass's gradients: the input gets 6, then 18 |
| Rules.SecondPassDoublesShallow | engine.c:41-57 | on a graph one operation deep (r = u·2) a second pass does double the input's gradient: 2, then 4 |
| Nn.LayerParamsLength | nn.c:68-69 | a layer's first k neurons have k * (nin + 1) parameters |
| Nn.LayerParamsPrefix | nn.c:71-77 | the parameters of fewer neurons begin those of more |
| Nn.LayerSlots | nn.c:73-75 | neuron i's j-th parameter sits at slot i*(nin+1)+j of the layer's list |
| Nn.MlpParamsLength | nn.c:88-91 | the MLP's parameter list has the summed count nout*(nin+1) over its layers |
| Nn.NeuronParmFun | nn.c:15-24 | nin + 1 entries: the weights in order, then the bias at index nin |
| Nn.NeuronZeroGrad | nn.c:5-13 | the gradient of each of the neuron's nin + 1 parameters becomes 0, and every other gradient and all data are unchanged |
| Nn.CopyInto | nn.c:73-75 | copying a list into an array from an offset fills exactly those slots; every slot before and after keeps what it held |
| Nn.LayerParmFun | nn.c:65-79 | the result is the concatenation of the neurons' parameter lists in order |
| Nn.LayerStep | nn.c:71-74 | neuron i's parameters start at offset i*(nin+1) and fit within the layer's list |
| Nn.MlpParmFun | nn.c:83-117 | the result is the concatenation of the layers' parameter lists in layer order, and its length is the first loop's total |
| Nn.MlpStep | nn.c:99-114 | after layer i's copy the running offset has advanced by that layer's count, still within the total |
| Nn.MlpParamsPrefix | nn.c:99-114 | the parameters of fewer layers begin those of more |
| Nn.GrownJoin | nn.c:44-47 | an arena grown twice has grown from the first |
| Nn.FreshJoin | nn.c:125-127 | fresh leaves appended in two steps are fresh leaves appended in one |
| Nn.NewLeaf | nn.c:31-35 | `value_new` of a value in [-1, 1] appends a fresh leaf |
| Nn.CreateNeuron | nn.c:26-39 | nin weight leaves with values in [-1, 1], then a bias leaf holding 0, all with gradient 0; the neuron's parameters are exactly these nin + 1 new nodes |
| Nn.CreateLayer | nn.c:119-130 | nout neurons of width nin with the given relu flag; the layer's parameter list is exactly the new nodes in creation order, all fresh leaves, and every bias is 0 |
| Nn.LayerGrowStep | nn.c:125-127 | a neuron created on fresh leaves right after the previous ones keeps the layer's construction invariant: width nin, the layer's relu flag, parameters exactly the new run of nodes, biases 0 |
| Nn.LayerBuildStep | nn.c:125-127 | a neuron created right after the previous ones extends the layer's run of parameter nodes |
| Nn.BiasesKept | nn.c:35 | earlier biases keep the value 0 as the arena grows |
| Nn.MlpBuildStep | nn.c:159-163 | a layer created right after the previous ones extends the MLP's run of parameter nodes |
| Nn.BuiltStep | nn.c:159-163 | building the next layer extends the built prefix |
| Nn.BuiltShape | nn.c:158-162 | each layer takes as many inputs as the layer before has neurons |
| Nn.MlpGrowStep | nn.c:159-163 | a layer built as the next layer on fresh leaves keeps the MLP's construction invariant: built prefix, parameters exactly the new run of nodes, biases 0 |
| Nn.LayerBiasesKept | nn.c:159-163 | earlier layers' biases keep the value 0 as the arena grows, and a new layer's zero biases join them |
| Nn.CreateMlp | nn.c:153-166 | layer 0 takes nin inputs, layer i > 0 takes nouts[i-1], layer i has nouts[i] neurons, and all but the last apply relu. The MLP's parameter list is exactly the new nodes, all fresh leaves, and every neuron's bias holds 0 |
| Forward.DotInData | nn.c:44-47 | the sum read from the arena equals the dot product of the values of weights and inputs |
| Forward.NeuronAtValue | nn.c:41-51 | the neuron's output read from the arena equals its evaluation on the input values |
| Forward.LayerEval | nn.c:147-149 | a layer has one output per neuron |
| Forward.MlpEval | nn.c:170-173 | the network's output has as many entries as the last layer has neurons, or is the input when there is no layer |
| Forward.DataKept | nn.c:43-48 | node values already in the arena do not change as the forward pass appends nodes |
| Forward.LayerEvalKept | nn.c:170-172 | a layer computes the same outputs after later nodes are appended |
| Forward.WeightedSum | nn.c:43-47 | the accumulated node holds w[0]*x[0] + … + w[k-1]*x[k-1], summed from the left starting at 0, and earlier nodes are untouched |
| Forward.CallNeuron | nn.c:41-51 | the returned node holds the bias plus the weighted sum of the inputs, through relu exactly when the neuron is nonlinear |
| Forward.DotInKept | nn.c:44-47 | the weighted sum read from the arena is unchanged by appended nodes |
| Forward.NeuronAtKept | nn.c:147-149 | a neuron's output read from the arena is unchanged by appended nodes |
| Forward.HoldsStep | nn.c:147-149 | one more neuron's output extends the layer's computed outputs |
| Forward.CallLayer | nn.c:142-151 | one output per neuron, in order; out[j] holds neuron j's output on x and is a relu node exactly when that neuron is nonlinear |
| Forward.LayerOutputs | nn.c:147-149 | the nodes out hold the layer's outputs on the input values |
| Forward.CallMlp | nn.c:168-174 | the returned nodes hold the network's output: each layer is applied to the previous layer's output, starting from x |
| Forward.HiddenNonNegative | nn.c:159-161 | in an MLP built by `create_mlp`, every hidden layer's outputs are non-negative, because those layers apply relu |

## Left out

- IEEE 754 arithmetic. The model is over `real`, so rounding, `inf` and `nan` are not modelled. Three cases that would produce `inf`/`nan` are excluded by preconditions instead:
  - `ValueTruediv` and `ValueScalarTruediv`: a zero divisor;
  - `ValueTruedivScalar`: a zero constant;
  - `ValuePow`: a non-positive power of zero.

  Fractional powers cannot arise, because the exponent is an `int` in the C code.
- Engine.Graph.ValueTruedivScalar: computes the constant as `Power(k, -1)`, the exact 1/k. `pow(k, -1)`'s rounding is not modelled. The node's value is stated through its operand and rule, and `Valid()` ties it to a's value times 1/k.
- Engine.Graph.Backward: requires at most 1024 reachable nodes. This is the capacity of the `topo` and `visited` arrays (engine.c:43-44); beyond it the C code overflows the stack arrays, and the model does not describe what happens.
- The `ops` display strings. These are diagnostics only.
- Memory management, which is ownership plumbing with no effect on values or gradients:
  - `free_value`, `free_neuron`, `free_layer`, `free_mlp`;
  - the intermediate output arrays that `call_mlp` leaks;
  - the intermediate `Value` nodes of `call_neuron`'s running sum (nn.c:43-46), which nothing frees.
- Nn.LayerParmFun, Nn.MlpParmFun and Forward.CallLayer: a failing `malloc` (a NULL result) is not modelled; allocation always succeeds. The checks at nn.c:95-96 and nn.c:145-146 are therefore not represented.
- Nn.CreateNeuron: `rand()` is modelled as an arbitrary choice of a value in [-1, 1] (nn.c:32). Its distribution and the pseudo-random sequence are not modelled.
- Dispatch through `base.parmeters` function pointers. Layers and MLPs call the neuron and layer parameter functions directly, as those pointers are always set to them. `Module.zero_grad` is never assigned in the C code, so nothing dispatches through it.
- Forward.WeightedSum: this is `call_neuron`'s loop split into a method of its own. `call_neuron` has no separate function for it.
- The `nonlin` flag is an `int` in C and is modelled as `bool` (any non-zero value means relu).
- The `int` counters (`nin`, `nout`, offsets) are modelled as unbounded naturals. Overflow of `nout * (nin + 1)` is not modelled.
- Forward.CallNeuron and Forward.CallLayer: state the values of the nodes they build and whether each is a relu node, but not that these nodes reach the neuron's weights, bias and inputs through their operands. So the model does not connect a forward pass to the gradients a later `backward` puts on the parameters.
- main.c, a driver that prints results.
- engine.h and nn.h are used only as the data layout.
