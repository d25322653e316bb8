/** The network of neural_network.h as functions of its layers' states: the
    forward pass, the two phases of back-propagation, a training run and the
    test count. The class in neural_network.dfy is proved to compute exactly
    these.

    `dims` gives the sizes along the chain: layer `j` maps `dims[j]` inputs
    to `dims[j + 1]` neurons. */
module NetworkSpec {
  import opened Options
  import opened LinAlg
  import opened Functions
  import opened Layers
  import opened Loops

  function Last<T>(s: seq<T>): (last: T)
    requires |s| > 0
  {
    s[|s| - 1]
  }

  /** A non-empty chain of layers with the sizes `dims`, so that every
      layer's input size is its predecessor's neuron count. */
  predicate Shaped(dims: seq<nat>, ss: seq<LayerState>) {
    |ss| > 0 && |dims| == |ss| + 1
    && (forall j {:trigger ss[j]} :: 0 <= j < |ss| ==>
          IsMatrix(ss[j].weights, dims[j], dims[j + 1]) && |ss[j].biases| == dims[j + 1])
  }

  /** Both forward caches of every layer hold one entry per neuron. */
  predicate Cached(ss: seq<LayerState>) {
    forall j :: 0 <= j < |ss| ==>
      |ss[j].neuronsValues| == |ss[j].biases| && |ss[j].neuronsValuesActivate| == |ss[j].biases|
  }

  /** `a` and `b` have the same weights, biases and activation pair; they may
      differ in their caches and their delta. */
  ghost predicate SameParameters(a: LayerState, b: LayerState) {
    a.weights == b.weights && a.biases == b.biases
    && a.activation == b.activation
  }

  /** The vector that flows into layer `j` when `x` is fed to the network:
      the composition of the first `j` layers, read off their parameters. */
  function Signal(dims: seq<nat>, ss: seq<LayerState>, x: Vector, j: nat): (s: Vector)
    requires Shaped(dims, ss) && |x| == dims[0] && j <= |ss|
    ensures |s| == dims[j]
  {
    if j == 0 then x
    else
      var l := ss[j - 1];
      Map(l.activation.apply, Affine(l.weights, Signal(dims, ss, x, j - 1), l.biases))
  }

  /** What the network computes on `x`. */
  function Output(dims: seq<nat>, ss: seq<LayerState>, x: Vector): (o: Vector)
    requires Shaped(dims, ss) && |x| == dims[0]
    ensures |o| == Last(dims)
  {
    Signal(dims, ss, x, |ss|)
  }

  /** The layer states after `forward(x)`: layer `j` has run its own forward
      pass on the signal that reaches it. */
  function ForwardAll(dims: seq<nat>, ss: seq<LayerState>, x: Vector): (r: seq<LayerState>)
    requires Shaped(dims, ss) && |x| == dims[0]
    ensures |r| == |ss|
  {
    ForwardPrefix(dims, ss, x, |ss|)
  }

  /** The first `k` layers after a forward pass on `x`. */
  function ForwardPrefix(dims: seq<nat>, ss: seq<LayerState>, x: Vector, k: nat): (r: seq<LayerState>)
    requires Shaped(dims, ss) && |x| == dims[0] && k <= |ss|
    ensures |r| == k
  {
    if k == 0 then []
    else ForwardPrefix(dims, ss, x, k - 1) + [Forwarded(ss[k - 1], Signal(dims, ss, x, k - 1))]
  }

  lemma {:induction false} ForwardPrefixAt(dims: seq<nat>, ss: seq<LayerState>, x: Vector, k: nat, j: nat)
    requires Shaped(dims, ss) && |x| == dims[0] && j < k <= |ss|
    ensures ForwardPrefix(dims, ss, x, k)[j] == Forwarded(ss[j], Signal(dims, ss, x, j))
  {
    var p := ForwardPrefix(dims, ss, x, k - 1);
    assert ForwardPrefix(dims, ss, x, k) == p + [Forwarded(ss[k - 1], Signal(dims, ss, x, k - 1))];
    if j < k - 1 {
      ForwardPrefixAt(dims, ss, x, k - 1, j);
    }
  }

  /** Layer `j` after a forward pass has run its own forward pass on the
      signal that reaches it. */
  lemma ForwardAllAt(dims: seq<nat>, ss: seq<LayerState>, x: Vector)
    requires Shaped(dims, ss) && |x| == dims[0]
    ensures forall j :: 0 <= j < |ss| ==>
      ForwardAll(dims, ss, x)[j] == Forwarded(ss[j], Signal(dims, ss, x, j))
  {
    forall j | 0 <= j < |ss| ensures ForwardAll(dims, ss, x)[j] == Forwarded(ss[j], Signal(dims, ss, x, j)) {
      ForwardPrefixAt(dims, ss, x, |ss|, j);
    }
  }

  /** A forward pass fills every cache to the layer's size and changes no
      parameter and no delta. */
  lemma ForwardAllShape(dims: seq<nat>, ss: seq<LayerState>, x: Vector)
    requires Shaped(dims, ss) && |x| == dims[0]
    ensures Shaped(dims, ForwardAll(dims, ss, x)) && Cached(ForwardAll(dims, ss, x))
    ensures forall j :: 0 <= j < |ss| ==>
      SameParameters(ForwardAll(dims, ss, x)[j], ss[j]) && ForwardAll(dims, ss, x)[j].delta == ss[j].delta
  {
    var r := ForwardAll(dims, ss, x);
    ForwardAllAt(dims, ss, x);
    forall j | 0 <= j < |ss|
      ensures IsMatrix(r[j].weights, dims[j], dims[j + 1]) && |r[j].biases| == dims[j + 1]
      ensures SameParameters(r[j], ss[j]) && r[j].delta == ss[j].delta
      ensures |r[j].neuronsValues| == |r[j].biases| && |r[j].neuronsValuesActivate| == |r[j].biases|
    {
      assert r[j] == Forwarded(ss[j], Signal(dims, ss, x, j));
    }
  }

  /** Layer 0 consumes the network input, and the last layer's activated
      cache is the network's output. */
  lemma ForwardAllEnds(dims: seq<nat>, ss: seq<LayerState>, x: Vector)
    requires Shaped(dims, ss) && |x| == dims[0]
    ensures ForwardAll(dims, ss, x)[0] == Forwarded(ss[0], x)
    ensures Last(ForwardAll(dims, ss, x)).neuronsValuesActivate == Output(dims, ss, x)
  {
    var r := ForwardAll(dims, ss, x);
    ForwardAllAt(dims, ss, x);
    assert r[|ss| - 1] == Forwarded(ss[|ss| - 1], Signal(dims, ss, x, |ss| - 1));
  }

  /** Every layer after the first consumes the activated cache its
      predecessor was just given. */
  lemma ForwardAllChain(dims: seq<nat>, ss: seq<LayerState>, x: Vector, j: nat)
    requires Shaped(dims, ss) && |x| == dims[0] && 0 < j < |ss|
    ensures var r := ForwardAll(dims, ss, x);
      |r[j - 1].neuronsValuesActivate| == dims[j]
      && r[j] == Forwarded(ss[j], r[j - 1].neuronsValuesActivate)
  {
    var r := ForwardAll(dims, ss, x);
    ForwardAllAt(dims, ss, x);
    ForwardAllShape(dims, ss, x);
    assert r[j - 1] == Forwarded(ss[j - 1], Signal(dims, ss, x, j - 1));
  }

  /** The forward pass one layer at a time: the first `k + 1` layers are
      the first `k`, then layer `k` run on the activated cache layer `k - 1`
      was just given. */
  lemma ForwardPrefixStep(dims: seq<nat>, ss: seq<LayerState>, x: Vector, k: nat)
    requires Shaped(dims, ss) && |x| == dims[0] && 0 < k < |ss|
    ensures var p := ForwardPrefix(dims, ss, x, k);
      |p[k - 1].neuronsValuesActivate| == dims[k]
      && ForwardPrefix(dims, ss, x, k + 1) == p + [Forwarded(ss[k], p[k - 1].neuronsValuesActivate)]
  {
    ForwardPrefixAt(dims, ss, x, k, k - 1);
  }

  /** Layers with the same parameters compute the same signal. */
  lemma {:induction false} SignalOfParameters(dims: seq<nat>, ss: seq<LayerState>,
                                              rs: seq<LayerState>, x: Vector, j: nat)
    requires Shaped(dims, ss) && Shaped(dims, rs) && |x| == dims[0] && j <= |ss|
    requires forall k :: 0 <= k < |ss| ==> SameParameters(rs[k], ss[k])
    ensures Signal(dims, rs, x, j) == Signal(dims, ss, x, j)
  {
    if j > 0 {
      SignalOfParameters(dims, ss, rs, x, j - 1);
      assert SameParameters(rs[j - 1], ss[j - 1]);
    }
  }

  /** A forward pass overwrites whatever an earlier forward pass cached:
      running it after another one, on the same input or any other, is
      running it once. */
  lemma ForwardAllOverwrites(dims: seq<nat>, ss: seq<LayerState>, x: Vector, y: Vector)
    requires Shaped(dims, ss) && |x| == dims[0] && |y| == dims[0]
    ensures Shaped(dims, ForwardAll(dims, ss, y))
    ensures ForwardAll(dims, ForwardAll(dims, ss, y), x) == ForwardAll(dims, ss, x)
  {
    var rs := ForwardAll(dims, ss, y);
    ForwardAllShape(dims, ss, y);
    var a, b := ForwardAll(dims, rs, x), ForwardAll(dims, ss, x);
    ForwardAllAt(dims, ss, y);
    ForwardAllAt(dims, rs, x);
    ForwardAllAt(dims, ss, x);
    forall j | 0 <= j < |ss| ensures a[j] == b[j] {
      SignalOfParameters(dims, ss, rs, x, j);
      assert rs[j] == Forwarded(ss[j], Signal(dims, ss, y, j));
      ForwardedOverwrites(ss[j], rs[j], Signal(dims, ss, x, j));
    }
  }

  /** A forward pass changes no parameter, so the network computes the same
      output after it as before. */
  lemma OutputAfterForward(dims: seq<nat>, ss: seq<LayerState>, x: Vector, y: Vector)
    requires Shaped(dims, ss) && |x| == dims[0] && |y| == dims[0]
    ensures Shaped(dims, ForwardAll(dims, ss, y))
    ensures Output(dims, ForwardAll(dims, ss, y), x) == Output(dims, ss, x)
  {
    ForwardAllShape(dims, ss, y);
    SignalOfParameters(dims, ss, ForwardAll(dims, ss, y), x, |ss|);
  }

  /** Calling `forward` twice with the same input leaves the state of one call. */
  lemma ForwardAllIdempotent(dims: seq<nat>, ss: seq<LayerState>, x: Vector)
    requires Shaped(dims, ss) && |x| == dims[0]
    ensures Shaped(dims, ForwardAll(dims, ss, x))
    ensures ForwardAll(dims, ForwardAll(dims, ss, x), x) == ForwardAll(dims, ss, x)
  {
    ForwardAllOverwrites(dims, ss, x, x);
  }

  /** The state back-propagation needs: a forward pass's caches and a target
      of the output's size. */
  ghost predicate Ready(dims: seq<nat>, ss: seq<LayerState>, t: Vector) {
    Shaped(dims, ss) && Cached(ss) && |t| == Last(dims)
  }

  /** The delta of layer `j`, computed from the states at the start of the
      backward pass: `(output - target) ⊙ f'(z)` for the last layer and
      `(W_{j+1} · delta_{j+1}) ⊙ f'(z_j)` for the others, where `z` is the
      cached pre-activation. */
  function Deltas(dims: seq<nat>, ss: seq<LayerState>, t: Vector, j: nat): (d: Vector)
    requires Ready(dims, ss, t) && j < |ss|
    ensures |d| == dims[j + 1]
    decreases |ss| - j
  {
    if j == |ss| - 1 then
      Hadamard(ErrorFunctionDerivative(ss[j].neuronsValuesActivate, t), Derivative(ss[j]))
    else
      Hadamard(MatVec(ss[j + 1].weights, Deltas(dims, ss, t, j + 1)), Derivative(ss[j]))
  }

  /** The vector layer `j` is updated with: the network input for layer 0,
      the predecessor's activated cache otherwise. */
  function UpdateInput(ss: seq<LayerState>, x: Vector, j: nat): (u: Vector)
    requires j < |ss|
  {
    if j == 0 then x else ss[j - 1].neuronsValuesActivate
  }

  /** Layer `j` after a backward pass: its delta recorded, its gradient step taken. */
  function LayerBackward(dims: seq<nat>, ss: seq<LayerState>, x: Vector, t: Vector,
                         learningRate: real, j: nat): (l: LayerState)
    requires Ready(dims, ss, t) && |x| == dims[0] && j < |ss|
  {
    var u := UpdateInput(ss, x, j);
    assert |u| == dims[j] by {
      if j > 0 { assert |ss[j - 1].neuronsValuesActivate| == |ss[j - 1].biases|; }
    }
    Updated(WithDelta(ss[j], Deltas(dims, ss, t, j)), u, learningRate)
  }

  /** The layer states after `backward(x, t, learningRate)`: every layer gets
      its delta, then every layer takes its gradient step. */
  function BackwardAll(dims: seq<nat>, ss: seq<LayerState>, x: Vector, t: Vector,
                       learningRate: real): (r: seq<LayerState>)
    requires Ready(dims, ss, t) && |x| == dims[0]
    ensures |r| == |ss|
  {
    BackwardPrefix(dims, ss, x, t, learningRate, |ss|)
  }

  /** The first `k` layers after a backward pass. */
  function BackwardPrefix(dims: seq<nat>, ss: seq<LayerState>, x: Vector, t: Vector,
                          learningRate: real, k: nat): (r: seq<LayerState>)
    requires Ready(dims, ss, t) && |x| == dims[0] && k <= |ss|
    ensures |r| == k
  {
    if k == 0 then []
    else BackwardPrefix(dims, ss, x, t, learningRate, k - 1) + [LayerBackward(dims, ss, x, t, learningRate, k - 1)]
  }

  lemma {:induction false} BackwardPrefixAt(dims: seq<nat>, ss: seq<LayerState>, x: Vector, t: Vector,
                                           learningRate: real, k: nat, j: nat)
    requires Ready(dims, ss, t) && |x| == dims[0] && j < k <= |ss|
    ensures BackwardPrefix(dims, ss, x, t, learningRate, k)[j] == LayerBackward(dims, ss, x, t, learningRate, j)
  {
    if j < k - 1 {
      BackwardPrefixAt(dims, ss, x, t, learningRate, k - 1, j);
    }
    AppendAt(BackwardPrefix(dims, ss, x, t, learningRate, k - 1), LayerBackward(dims, ss, x, t, learningRate, k - 1), j);
  }

  lemma AppendAt<T>(p: seq<T>, l: T, j: nat)
    requires j <= |p|
    ensures (p + [l])[j] == if j < |p| then p[j] else l
  {
  }

  /** Layer `j` after a backward pass: its delta recorded, its step taken. */
  lemma BackwardAllAt(dims: seq<nat>, ss: seq<LayerState>, x: Vector, t: Vector, learningRate: real)
    requires Ready(dims, ss, t) && |x| == dims[0]
    ensures forall j :: 0 <= j < |ss| ==>
      BackwardAll(dims, ss, x, t, learningRate)[j] == LayerBackward(dims, ss, x, t, learningRate, j)
  {
    forall j | 0 <= j < |ss|
      ensures BackwardAll(dims, ss, x, t, learningRate)[j] == LayerBackward(dims, ss, x, t, learningRate, j)
    {
      BackwardPrefixAt(dims, ss, x, t, learningRate, |ss|, j);
    }
  }

  /** A backward pass keeps the shapes, the caches and the activation pairs,
      and leaves in each layer the delta `Deltas` computes. */
  lemma BackwardAllShape(dims: seq<nat>, ss: seq<LayerState>, x: Vector, t: Vector,
                         learningRate: real)
    requires Ready(dims, ss, t) && |x| == dims[0]
    ensures Shaped(dims, BackwardAll(dims, ss, x, t, learningRate))
    ensures Cached(BackwardAll(dims, ss, x, t, learningRate))
    ensures forall j :: 0 <= j < |ss| ==>
      var l := BackwardAll(dims, ss, x, t, learningRate)[j];
      l.neuronsValues == ss[j].neuronsValues && l.neuronsValuesActivate == ss[j].neuronsValuesActivate
      && l.delta == Deltas(dims, ss, t, j)
  {
    var r := BackwardAll(dims, ss, x, t, learningRate);
    BackwardAllAt(dims, ss, x, t, learningRate);
    forall j | 0 <= j < |ss|
      ensures IsMatrix(r[j].weights, dims[j], dims[j + 1]) && |r[j].biases| == dims[j + 1]
      ensures r[j].neuronsValues == ss[j].neuronsValues
      ensures r[j].neuronsValuesActivate == ss[j].neuronsValuesActivate
      ensures r[j].delta == Deltas(dims, ss, t, j)
    {
      assert r[j] == LayerBackward(dims, ss, x, t, learningRate, j);
    }
  }

  /** The last layer's delta is the output error times the derivative at its
      cached pre-activation. */
  lemma BackwardAllOutputDelta(dims: seq<nat>, ss: seq<LayerState>, x: Vector, t: Vector,
                               learningRate: real)
    requires Ready(dims, ss, t) && |x| == dims[0]
    ensures Last(BackwardAll(dims, ss, x, t, learningRate)).delta
         == Hadamard(ErrorFunctionDerivative(Last(ss).neuronsValuesActivate, t), Derivative(Last(ss)))
  {
    BackwardAllShape(dims, ss, x, t, learningRate);
  }

  /** Every other delta is the next layer's weights, as they were when the
      pass started and not as it leaves them, applied to the next layer's
      delta, times the derivative at the cached pre-activation. */
  lemma BackwardAllHiddenDelta(dims: seq<nat>, ss: seq<LayerState>, x: Vector, t: Vector,
                               learningRate: real, j: nat)
    requires Ready(dims, ss, t) && |x| == dims[0] && j < |ss| - 1
    ensures var r := BackwardAll(dims, ss, x, t, learningRate);
      IsMatrix(ss[j + 1].weights, |r[j].delta|, |r[j + 1].delta|)
      && r[j].delta == Hadamard(MatVec(ss[j + 1].weights, r[j + 1].delta), Derivative(ss[j]))
  {
    BackwardAllShape(dims, ss, x, t, learningRate);
  }

  /** Each layer's gradient step pairs its new delta with the input it was
      fed: the network input for layer 0, the activated cache of layer
      `j - 1` otherwise, which the backward pass leaves as it was. */
  lemma BackwardAllStep(dims: seq<nat>, ss: seq<LayerState>, x: Vector, t: Vector,
                        learningRate: real, j: nat)
    requires Ready(dims, ss, t) && |x| == dims[0] && j < |ss|
    ensures var r := BackwardAll(dims, ss, x, t, learningRate);
      UpdateInput(r, x, j) == UpdateInput(ss, x, j)
      && IsMatrix(ss[j].weights, |UpdateInput(ss, x, j)|, |r[j].delta|)
      && |ss[j].biases| == |r[j].delta|
      && r[j] == Updated(WithDelta(ss[j], r[j].delta), UpdateInput(ss, x, j), learningRate)
  {
    BackwardAllShape(dims, ss, x, t, learningRate);
    BackwardAllAt(dims, ss, x, t, learningRate);
    assert j > 0 ==> |ss[j - 1].neuronsValuesActivate| == dims[j];
  }

  /** With a zero learning rate a backward pass only records the deltas. */
  lemma BackwardAllWithoutStep(dims: seq<nat>, ss: seq<LayerState>, x: Vector, t: Vector)
    requires Ready(dims, ss, t) && |x| == dims[0]
    ensures forall j :: 0 <= j < |ss| ==>
      BackwardAll(dims, ss, x, t, 0.0)[j] == WithDelta(ss[j], Deltas(dims, ss, t, j))
  {
    BackwardAllAt(dims, ss, x, t, 0.0);
    forall j | 0 <= j < |ss|
      ensures BackwardAll(dims, ss, x, t, 0.0)[j] == WithDelta(ss[j], Deltas(dims, ss, t, j))
    {
      assert j > 0 ==> |ss[j - 1].neuronsValuesActivate| == dims[j];
      UpdatedWithoutStep(WithDelta(ss[j], Deltas(dims, ss, t, j)), UpdateInput(ss, x, j), 0.0);
    }
  }

  /** One training sample: forward, then backward. */
  function TrainStep(dims: seq<nat>, ss: seq<LayerState>, x: Vector, t: Vector,
                     learningRate: real): (r: seq<LayerState>)
    requires Shaped(dims, ss) && |x| == dims[0] && |t| == Last(dims)
    ensures Shaped(dims, r)
  {
    ForwardAllShape(dims, ss, x);
    var f := ForwardAll(dims, ss, x);
    BackwardAllShape(dims, f, x, t, learningRate);
    BackwardAll(dims, f, x, t, learningRate)
  }

  /** Every input sample fits the input layer and its target the output
      layer; there is a target for each input. */
  ghost predicate Samples(dims: seq<nat>, inputs: seq<Vector>, targets: seq<Vector>) {
    |dims| > 0 && |inputs| <= |targets|
    && (forall i :: 0 <= i < |inputs| ==> |inputs[i]| == dims[0] && |targets[i]| == Last(dims))
  }

  /** What training does with one sample: new layer states from the current
      ones, an input and its target. */
  type Step = (seq<LayerState>, Vector, Vector) -> seq<LayerState>

  /** `step` keeps every chain of sizes `dims` a chain of sizes `dims`. */
  ghost predicate KeepsShape(dims: seq<nat>, step: Step) {
    |dims| > 0
    && forall ss, x, t {:trigger step(ss, x, t)} ::
         Shaped(dims, ss) && |x| == dims[0] && |t| == Last(dims) ==> Shaped(dims, step(ss, x, t))
  }

  /** `step` is the step of `train` with rate `learningRate` on every
      sample that fits a chain of sizes `dims`. */
  ghost predicate TrainsWith(dims: seq<nat>, learningRate: real, step: Step)
    requires |dims| > 0
  {
    forall ss, x, t {:trigger TrainStep(dims, ss, x, t, learningRate)} ::
      Shaped(dims, ss) && |x| == dims[0] && |t| == Last(dims) ==>
        step(ss, x, t) == TrainStep(dims, ss, x, t, learningRate)
  }

  /** The step of `train`: `TrainStep` on every sample that fits the chain. */
  ghost function Trainer(dims: seq<nat>, learningRate: real): (step: Step)
    requires |dims| > 0
    ensures KeepsShape(dims, step) && TrainsWith(dims, learningRate, step)
  {
    (ss: seq<LayerState>, x: Vector, t: Vector) =>
      if Shaped(dims, ss) && |x| == dims[0] && |t| == Last(dims)
      then TrainStep(dims, ss, x, t, learningRate)
      else ss
  }

  /** The layer states after the first `k` samples of an epoch. */
  function EpochState(dims: seq<nat>, step: Step, ss: seq<LayerState>, inputs: seq<Vector>,
                      targets: seq<Vector>, k: nat): (r: seq<LayerState>)
    requires KeepsShape(dims, step) && Shaped(dims, ss) && Samples(dims, inputs, targets)
    requires k <= |inputs|
    ensures Shaped(dims, r)
  {
    if k == 0 then ss
    else step(EpochState(dims, step, ss, inputs, targets, k - 1), inputs[k - 1], targets[k - 1])
  }

  /** The summed loss of samples `k` to the end of an epoch when sample `k`
      finds the layers in state `ss`: each sample's loss is taken on the
      output of the network as the samples before it left it. */
  function LossFrom(dims: seq<nat>, step: Step, ss: seq<LayerState>, inputs: seq<Vector>,
                    targets: seq<Vector>, k: nat): (sum: real)
    requires KeepsShape(dims, step) && Shaped(dims, ss) && Samples(dims, inputs, targets)
    requires k <= |inputs|
    decreases |inputs| - k
  {
    if k == |inputs| then 0.0
    else
      ErrorFunction(Output(dims, ss, inputs[k]), targets[k])
        + LossFrom(dims, step, step(ss, inputs[k], targets[k]), inputs, targets, k + 1)
  }

  /** The loss an epoch reports: the mean over its samples, or None for the
      NaN that dividing by zero samples gives. */
  function EpochLoss(dims: seq<nat>, step: Step, ss: seq<LayerState>, inputs: seq<Vector>,
                     targets: seq<Vector>): (loss: Option<real>)
    requires KeepsShape(dims, step) && Shaped(dims, ss) && Samples(dims, inputs, targets)
  {
    if |inputs| == 0 then None
    else Some(LossFrom(dims, step, ss, inputs, targets, 0) / (|inputs| as real))
  }

  /** A summed loss is never negative. */
  lemma {:induction false} LossFromNonNegative(dims: seq<nat>, step: Step, ss: seq<LayerState>,
                                              inputs: seq<Vector>, targets: seq<Vector>, k: nat)
    requires KeepsShape(dims, step) && Shaped(dims, ss) && Samples(dims, inputs, targets)
    requires k <= |inputs|
    ensures LossFrom(dims, step, ss, inputs, targets, k) >= 0.0
    decreases |inputs| - k
  {
    if k < |inputs| {
      ErrorFunctionNonNegative(Output(dims, ss, inputs[k]), targets[k]);
      LossFromNonNegative(dims, step, step(ss, inputs[k], targets[k]), inputs, targets, k + 1);
    }
  }

  /** An epoch over a non-empty sample set reports a loss, and it is never
      negative; an empty one reports none. */
  lemma EpochLossNonNegative(dims: seq<nat>, step: Step, ss: seq<LayerState>,
                             inputs: seq<Vector>, targets: seq<Vector>)
    requires KeepsShape(dims, step) && Shaped(dims, ss) && Samples(dims, inputs, targets)
    ensures EpochLoss(dims, step, ss, inputs, targets).Some? <==> |inputs| > 0
    ensures EpochLoss(dims, step, ss, inputs, targets).Some? ==>
      EpochLoss(dims, step, ss, inputs, targets).value >= 0.0
  {
    if |inputs| > 0 {
      LossFromNonNegative(dims, step, ss, inputs, targets, 0);
      QuotientNonNegative(LossFrom(dims, step, ss, inputs, targets, 0),
                          |inputs| as real);
    }
  }

  lemma QuotientNonNegative(a: real, b: real)
    requires a >= 0.0 && b > 0.0
    ensures a / b >= 0.0
  {
  }

  /** The layer states after `e` epochs. */
  function TrainState(dims: seq<nat>, step: Step, ss: seq<LayerState>, inputs: seq<Vector>,
                      targets: seq<Vector>, e: nat): (r: seq<LayerState>)
    requires KeepsShape(dims, step) && Shaped(dims, ss) && Samples(dims, inputs, targets)
    ensures Shaped(dims, r)
  {
    if e == 0 then ss
    else
      EpochState(dims, step, TrainState(dims, step, ss, inputs, targets, e - 1),
                 inputs, targets, |inputs|)
  }

  /** The losses of the first `e` epochs, in order. */
  function TrainLosses(dims: seq<nat>, step: Step, ss: seq<LayerState>, inputs: seq<Vector>,
                       targets: seq<Vector>, e: nat): (ls: seq<Option<real>>)
    requires KeepsShape(dims, step) && Shaped(dims, ss) && Samples(dims, inputs, targets)
    ensures |ls| == e
  {
    if e == 0 then []
    else
      TrainLosses(dims, step, ss, inputs, targets, e - 1)
        + [EpochLoss(dims, step, TrainState(dims, step, ss, inputs, targets, e - 1),
                     inputs, targets)]
  }

  /** Entry `q` of the losses is the loss of epoch `q`, taken from the
      state the epochs before it left. */
  lemma {:induction false} TrainLossesAt(dims: seq<nat>, step: Step, ss: seq<LayerState>,
                                        inputs: seq<Vector>, targets: seq<Vector>, e: nat, q: nat)
    requires KeepsShape(dims, step) && Shaped(dims, ss) && Samples(dims, inputs, targets)
    requires q < e
    ensures TrainLosses(dims, step, ss, inputs, targets, e)[q]
         == EpochLoss(dims, step, TrainState(dims, step, ss, inputs, targets, q), inputs, targets)
  {
    if q < e - 1 {
      TrainLossesAt(dims, step, ss, inputs, targets, e - 1, q);
    }
  }

  /** Every reported epoch loss is present and non-negative when there are
      samples, and absent when there are none. */
  lemma TrainLossesNonNegative(dims: seq<nat>, step: Step, ss: seq<LayerState>,
                               inputs: seq<Vector>, targets: seq<Vector>, e: nat)
    requires KeepsShape(dims, step) && Shaped(dims, ss) && Samples(dims, inputs, targets)
    ensures forall q :: 0 <= q < e ==>
      var l := TrainLosses(dims, step, ss, inputs, targets, e)[q];
      (l.Some? <==> |inputs| > 0) && (l.Some? ==> l.value >= 0.0)
  {
    forall q | 0 <= q < e
      ensures var l := TrainLosses(dims, step, ss, inputs, targets, e)[q];
        (l.Some? <==> |inputs| > 0) && (l.Some? ==> l.value >= 0.0)
    {
      TrainLossesAt(dims, step, ss, inputs, targets, e, q);
      EpochLossNonNegative(dims, step, TrainState(dims, step, ss, inputs, targets, q), inputs, targets);
    }
  }

  /** Sample indices `0 .. n-1`. */
  function Range(n: nat): (r: seq<nat>)
    ensures |r| == n && forall i :: 0 <= i < n ==> r[i] == i
  {
    if n == 0 then [] else Range(n - 1) + [n - 1]
  }

  /** The order in which `e` epochs visit `n` samples: `Range(n)`, `e` times. */
  function Schedule(n: nat, e: nat): (sched: seq<nat>) {
    if e == 0 then [] else Schedule(n, e - 1) + Range(n)
  }

  lemma {:induction false} ScheduleLength(n: nat, e: nat)
    ensures |Schedule(n, e)| == e * n
  {
    if e > 0 {
      ScheduleLength(n, e - 1);
      MulSucc(e - 1, n);
    }
  }

  /** Epoch `q` of the schedule, steps `q * n` to `q * n + n`, visits the
      samples `0 .. n-1` in order. */
  lemma {:induction false} ScheduleEpoch(n: nat, e: nat, q: nat)
    requires q < e
    ensures |Schedule(n, e)| == e * n
    ensures q * n + n <= e * n
    ensures Schedule(n, e)[q * n .. q * n + n] == Range(n)
  {
    var s := Schedule(n, e - 1);
    var m := (e - 1) * n;
    ScheduleLength(n, e - 1);
    MulSucc(e - 1, n);
    assert Schedule(n, e) == s + Range(n);
    if q < e - 1 {
      ScheduleEpoch(n, e - 1, q);
      assert (s + Range(n))[q * n .. q * n + n] == s[q * n .. q * n + n];
    } else {
      assert q * n == m;
    }
  }

  /** Every index of `sched` names an input sample. */
  predicate InRange(sched: seq<nat>, n: nat) {
    forall p :: 0 <= p < |sched| ==> sched[p] < n
  }

  lemma {:induction false} ScheduleInRange(n: nat, e: nat)
    ensures InRange(Schedule(n, e), n)
  {
    if e > 0 {
      ScheduleInRange(n, e - 1);
      var a, b := Schedule(n, e - 1), Range(n);
      forall p | 0 <= p < |a + b| ensures (a + b)[p] < n {
        if p >= |a| { assert (a + b)[p] == b[p - |a|]; }
      }
    }
  }

  /** The layer states after training on the samples `sched` names, in order. */
  function Steps(dims: seq<nat>, step: Step, ss: seq<LayerState>, inputs: seq<Vector>,
                 targets: seq<Vector>, sched: seq<nat>): (r: seq<LayerState>)
    requires KeepsShape(dims, step) && Shaped(dims, ss) && Samples(dims, inputs, targets)
    requires InRange(sched, |inputs|)
    ensures Shaped(dims, r)
  {
    if |sched| == 0 then ss
    else
      var p := Last(sched);
      step(Steps(dims, step, ss, inputs, targets, sched[..|sched| - 1]), inputs[p], targets[p])
  }

  /** Running the steps of `a + b` is running those of `a`, then those of `b`. */
  lemma {:induction false} StepsAppend(dims: seq<nat>, step: Step, ss: seq<LayerState>,
                                      inputs: seq<Vector>, targets: seq<Vector>,
                                      a: seq<nat>, b: seq<nat>)
    requires KeepsShape(dims, step) && Shaped(dims, ss) && Samples(dims, inputs, targets)
    requires InRange(a, |inputs|) && InRange(b, |inputs|)
    ensures InRange(a + b, |inputs|)
    ensures Steps(dims, step, ss, inputs, targets, a + b)
         == Steps(dims, step, Steps(dims, step, ss, inputs, targets, a), inputs, targets, b)
  {
    assert InRange(a + b, |inputs|) by {
      forall p | 0 <= p < |a + b| ensures (a + b)[p] < |inputs| {
        if p >= |a| { assert (a + b)[p] == b[p - |a|]; }
      }
    }
    if |b| == 0 {
      assert a + b == a;
    } else {
      var b' := b[..|b| - 1];
      assert InRange(b', |inputs|) by {
        forall k | 0 <= k < |b'| ensures b'[k] < |inputs| { assert b'[k] == b[k]; }
      }
      StepsAppend(dims, step, ss, inputs, targets, a, b');
      assert (a + b)[..|a + b| - 1] == a + b';
      assert Last(a + b) == Last(b);
    }
  }

  /** The first `k` samples of an epoch are the steps `Range(k)`. */
  lemma {:induction false} EpochStateIsSteps(dims: seq<nat>, step: Step, ss: seq<LayerState>,
                                            inputs: seq<Vector>, targets: seq<Vector>, k: nat)
    requires KeepsShape(dims, step) && Shaped(dims, ss) && Samples(dims, inputs, targets)
    requires k <= |inputs|
    ensures InRange(Range(k), |inputs|)
    ensures EpochState(dims, step, ss, inputs, targets, k)
         == Steps(dims, step, ss, inputs, targets, Range(k))
  {
    if k > 0 {
      EpochStateIsSteps(dims, step, ss, inputs, targets, k - 1);
      assert Range(k)[..k - 1] == Range(k - 1);
    }
  }

  /** Training for `e` epochs takes the steps of `Schedule(|inputs|, e)`:
      `e * |inputs|` of them, every epoch visiting the samples in index order. */
  lemma {:induction false} TrainStateIsSchedule(dims: seq<nat>, step: Step, ss: seq<LayerState>,
                                               inputs: seq<Vector>, targets: seq<Vector>, e: nat)
    requires KeepsShape(dims, step) && Shaped(dims, ss) && Samples(dims, inputs, targets)
    ensures InRange(Schedule(|inputs|, e), |inputs|)
    ensures TrainState(dims, step, ss, inputs, targets, e)
         == Steps(dims, step, ss, inputs, targets, Schedule(|inputs|, e))
  {
    var n := |inputs|;
    ScheduleInRange(n, e);
    if e > 0 {
      TrainStateIsSchedule(dims, step, ss, inputs, targets, e - 1);
      var before := TrainState(dims, step, ss, inputs, targets, e - 1);
      EpochStateIsSteps(dims, step, before, inputs, targets, n);
      ScheduleInRange(n, e - 1);
      StepsAppend(dims, step, ss, inputs, targets, Schedule(n, e - 1), Range(n));
    }
  }

  /** Test samples: inputs fit the input layer, targets are non-empty (their
      first maximal entry must exist) and there is one for each input; when
      there is a sample, the output layer has a neuron, so that the output
      has a first maximal entry too. */
  ghost predicate TestSamples(inSize: nat, outSize: nat, inputs: seq<Vector>, targets: seq<Vector>) {
    |inputs| <= |targets|
    && (|inputs| > 0 ==> outSize > 0)
    && (forall i :: 0 <= i < |inputs| ==> |inputs[i]| == inSize && |targets[i]| > 0)
  }

  /** The first maximal entries of the output and of the target agree. */
  ghost predicate Hit(dims: seq<nat>, ss: seq<LayerState>, x: Vector, t: Vector)
    requires Shaped(dims, ss) && |x| == dims[0] && Last(dims) > 0 && |t| > 0
  {
    FirstArgMax(Output(dims, ss, x)) == FirstArgMax(t)
  }

  /** Whether each of the first `k` test samples is a hit. */
  ghost function Hits(dims: seq<nat>, ss: seq<LayerState>, inputs: seq<Vector>,
                      targets: seq<Vector>, k: nat): (h: seq<bool>)
    requires Shaped(dims, ss) && TestSamples(dims[0], Last(dims), inputs, targets)
    requires k <= |inputs|
    ensures |h| == k
  {
    if k == 0 then [] else Hits(dims, ss, inputs, targets, k - 1) + [Hit(dims, ss, inputs[k - 1], targets[k - 1])]
  }

  lemma {:induction false} HitsAt(dims: seq<nat>, ss: seq<LayerState>, inputs: seq<Vector>,
                                  targets: seq<Vector>, k: nat, i: nat)
    requires Shaped(dims, ss) && TestSamples(dims[0], Last(dims), inputs, targets)
    requires i < k <= |inputs|
    ensures Hits(dims, ss, inputs, targets, k)[i] == Hit(dims, ss, inputs[i], targets[i])
  {
    var h := Hits(dims, ss, inputs, targets, k - 1);
    assert Hits(dims, ss, inputs, targets, k) == h + [Hit(dims, ss, inputs[k - 1], targets[k - 1])];
    if i < k - 1 {
      HitsAt(dims, ss, inputs, targets, k - 1, i);
    }
  }

  /** The number of `true` entries of `b`. */
  function Count(b: seq<bool>): (c: nat)
    ensures c <= |b|
  {
    if |b| == 0 then 0 else Count(b[..|b| - 1]) + (if b[|b| - 1] then 1 else 0)
  }

  /** All entries are true exactly when the count is the length, none
      exactly when it is 0. */
  lemma {:induction false} CountExtremes(b: seq<bool>)
    ensures Count(b) == |b| <==> forall i :: 0 <= i < |b| ==> b[i]
    ensures Count(b) == 0 <==> forall i :: 0 <= i < |b| ==> !b[i]
  {
    if |b| > 0 {
      var p := b[..|b| - 1];
      CountExtremes(p);
      assert forall i :: 0 <= i < |p| ==> p[i] == b[i];
    }
  }

  /** The number of hits among the first `k` test samples. */
  ghost function CountCorrect(dims: seq<nat>, ss: seq<LayerState>, inputs: seq<Vector>,
                              targets: seq<Vector>, k: nat): (c: nat)
    requires Shaped(dims, ss) && TestSamples(dims[0], Last(dims), inputs, targets)
    requires k <= |inputs|
  {
    Count(Hits(dims, ss, inputs, targets, k))
  }

  /** The count of the first `k` samples is `k` exactly when every one of
      them is a hit, and 0 exactly when none is. */
  lemma CountCorrectExtremes(dims: seq<nat>, ss: seq<LayerState>,
                             inputs: seq<Vector>, targets: seq<Vector>, k: nat)
    requires Shaped(dims, ss) && TestSamples(dims[0], Last(dims), inputs, targets)
    requires k <= |inputs|
    ensures CountCorrect(dims, ss, inputs, targets, k) <= k
    ensures CountCorrect(dims, ss, inputs, targets, k) == k
        <==> forall i :: 0 <= i < k ==> Hit(dims, ss, inputs[i], targets[i])
    ensures CountCorrect(dims, ss, inputs, targets, k) == 0
        <==> forall i :: 0 <= i < k ==> !Hit(dims, ss, inputs[i], targets[i])
  {
    var h := Hits(dims, ss, inputs, targets, k);
    CountExtremes(h);
    forall i | 0 <= i < k ensures h[i] == Hit(dims, ss, inputs[i], targets[i]) {
      HitsAt(dims, ss, inputs, targets, k, i);
    }
  }

  /** The accuracy `test` reports: hits over samples, or None for the NaN of
      an empty test set. */
  ghost function Accuracy(dims: seq<nat>, ss: seq<LayerState>, inputs: seq<Vector>,
                    targets: seq<Vector>): (a: Option<real>)
    requires Shaped(dims, ss) && TestSamples(dims[0], Last(dims), inputs, targets)
  {
    if |inputs| == 0 then None
    else Some(CountCorrect(dims, ss, inputs, targets, |inputs|) as real / (|inputs| as real))
  }

  /** A non-empty test set gives an accuracy in [0, 1]; it is 1 exactly when
      every sample is a hit and 0 exactly when none is. An empty one gives
      none. */
  lemma AccuracyBounds(dims: seq<nat>, ss: seq<LayerState>, inputs: seq<Vector>,
                       targets: seq<Vector>)
    requires Shaped(dims, ss) && TestSamples(dims[0], Last(dims), inputs, targets)
    ensures Accuracy(dims, ss, inputs, targets).Some? <==> |inputs| > 0
    ensures Accuracy(dims, ss, inputs, targets).Some? ==>
      0.0 <= Accuracy(dims, ss, inputs, targets).value <= 1.0
    ensures |inputs| > 0 ==>
      ((Accuracy(dims, ss, inputs, targets) == Some(1.0))
       <==> (forall i :: 0 <= i < |inputs| ==> Hit(dims, ss, inputs[i], targets[i])))
    ensures |inputs| > 0 ==>
      ((Accuracy(dims, ss, inputs, targets) == Some(0.0))
       <==> (forall i :: 0 <= i < |inputs| ==> !Hit(dims, ss, inputs[i], targets[i])))
  {
    var n := |inputs|;
    if n > 0 {
      CountCorrectExtremes(dims, ss, inputs, targets, n);
      RatioBounds(CountCorrect(dims, ss, inputs, targets, n), n);
    }
  }

  lemma RatioBounds(c: nat, n: nat)
    requires c <= n && n > 0
    ensures 0.0 <= c as real / n as real <= 1.0
    ensures c as real / n as real == 1.0 <==> c == n
    ensures c as real / n as real == 0.0 <==> c == 0
  {
  }

  /** The layer states `test` leaves behind: the caches of its last forward pass. */
  function TestState(dims: seq<nat>, ss: seq<LayerState>, inputs: seq<Vector>): (r: seq<LayerState>)
    requires Shaped(dims, ss) && forall i :: 0 <= i < |inputs| ==> |inputs[i]| == dims[0]
  {
    if |inputs| == 0 then ss else ForwardAll(dims, ss, Last(inputs))
  }
}
