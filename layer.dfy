/** One fully connected layer (layer.h): a weight matrix of shape
    inputs × neurons, a bias vector, the two caches written by the forward
    pass and the delta slot set by the network. */
module Layers {
  import opened LinAlg

  /** The layer's fields as a value: its parameters, the two caches of the
      last forward pass, the delta slot and the activation pair it was
      built with, as the scalar functions the pair applies to every entry
      (the sigmoid and its derivative are element-wise). */
  datatype LayerState = LayerState(
    weights: Matrix,
    biases: Vector,
    neuronsValues: Vector,
    neuronsValuesActivate: Vector,
    delta: Vector,
    activation: Activation)

  /** The activation function a layer is built with and its derivative. */
  datatype Activation = Activation(apply: real -> real, derivative: real -> real)

  /** The state after a forward pass on `input`: the pre-activation
      `weights`ᵀ`input + biases` and its activation are cached; nothing else
      changes. */
  function Forwarded(s: LayerState, input: Vector): (r: LayerState)
    requires IsMatrix(s.weights, |input|, |s.biases|)
    ensures r.weights == s.weights && r.biases == s.biases && r.delta == s.delta
    ensures r.activation == s.activation
    ensures |r.neuronsValues| == |s.biases|
    ensures |r.neuronsValuesActivate| == |s.biases|
    ensures r.neuronsValuesActivate == Map(s.activation.apply, r.neuronsValues)
  {
    var y := Affine(s.weights, input, s.biases);
    s.(neuronsValues := y, neuronsValuesActivate := Map(s.activation.apply, y))
  }

  /** The activation derivative at the cached pre-activation. */
  function Derivative(s: LayerState): (d: Vector)
    ensures |d| == |s.neuronsValues|
  {
    Map(s.activation.derivative, s.neuronsValues)
  }

  /** The state after `set_delta(d)`. */
  function WithDelta(s: LayerState, d: Vector): (r: LayerState) {
    s.(delta := d)
  }

  /** The state after `update_weights(input, learningRate)`: one gradient
      step `weights -= learningRate * input * delta`ᵀ and
      `biases -= learningRate * delta`. */
  function Updated(s: LayerState, input: Vector, learningRate: real): (r: LayerState)
    requires IsMatrix(s.weights, |input|, |s.delta|) && |s.biases| == |s.delta|
    ensures IsMatrix(r.weights, |input|, |s.delta|) && |r.biases| == |s.biases|
    ensures r.neuronsValues == s.neuronsValues && r.neuronsValuesActivate == s.neuronsValuesActivate
    ensures r.delta == s.delta
    ensures r.activation == s.activation
  {
    s.(weights := MatSub(s.weights, MatScale(learningRate, Outer(input, s.delta))),
       biases := Sub(s.biases, Scale(learningRate, s.delta)))
  }

  /** Entry `c` of the cached pre-activation is the sum over the rows `r`
      of `weights[r][c] * input[r]`, plus `biases[c]`. */
  lemma ForwardedEntry(s: LayerState, input: Vector, c: nat)
    requires IsMatrix(s.weights, |input|, |s.biases|) && c < |s.biases|
    ensures Forwarded(s, input).neuronsValues[c]
         == ColumnSum(s.weights, c, input) + s.biases[c]
  {
    AffineEntry(s.weights, input, s.biases, c);
  }

  /** A second forward pass on the same input changes nothing. */
  lemma ForwardedIdempotent(s: LayerState, input: Vector)
    requires IsMatrix(s.weights, |input|, |s.biases|)
    ensures Forwarded(Forwarded(s, input), input) == Forwarded(s, input)
  {
  }

  /** A forward pass overwrites both caches: states that differ only there
      end up equal. */
  lemma ForwardedOverwrites(s: LayerState, s': LayerState, input: Vector)
    requires s' == s.(neuronsValues := s'.neuronsValues, neuronsValuesActivate := s'.neuronsValuesActivate)
    requires IsMatrix(s.weights, |input|, |s.biases|)
    ensures Forwarded(s', input) == Forwarded(s, input)
  {
  }

  /** After a forward pass the derivative is taken at the pre-activation
      `weights`ᵀ`input + biases`, whatever the activation made of it. */
  lemma DerivativeAfterForward(s: LayerState, input: Vector)
    requires IsMatrix(s.weights, |input|, |s.biases|)
    ensures Derivative(Forwarded(s, input)) == Map(s.activation.derivative, Affine(s.weights, input, s.biases))
  {
  }

  /** Each weight moves by `-learningRate * input[r] * delta[c]` and each bias
      by `-learningRate * delta[c]`. */
  lemma UpdatedEntries(s: LayerState, input: Vector, learningRate: real)
    requires IsMatrix(s.weights, |input|, |s.delta|) && |s.biases| == |s.delta|
    ensures forall r, c :: 0 <= r < |input| && 0 <= c < |s.delta| ==>
      Updated(s, input, learningRate).weights[r][c]
        == s.weights[r][c] - learningRate * (input[r] * s.delta[c])
    ensures forall c :: 0 <= c < |s.delta| ==>
      Updated(s, input, learningRate).biases[c] == s.biases[c] - learningRate * s.delta[c]
  {
    forall r, c | 0 <= r < |input| && 0 <= c < |s.delta| {
      UpdatedWeight(s, input, learningRate, r, c);
    }
    SubEntries(s.biases, Scale(learningRate, s.delta));
    ScaleEntries(learningRate, s.delta);
  }

  lemma UpdatedWeight(s: LayerState, input: Vector, learningRate: real, r: nat, c: nat)
    requires IsMatrix(s.weights, |input|, |s.delta|) && |s.biases| == |s.delta|
    requires r < |input| && c < |s.delta|
    ensures Updated(s, input, learningRate).weights[r][c]
         == s.weights[r][c] - learningRate * (input[r] * s.delta[c])
  {
    var o := Outer(input, s.delta);
    var m := MatScale(learningRate, o);
    OuterEntry(input, s.delta, r, c);
    MatScaleRows(learningRate, o);
    ScaleEntries(learningRate, o[r]);
    MatSubRows(s.weights, m);
    SubEntries(s.weights[r], m[r]);
  }

  /** With a zero learning rate or a zero delta the parameters stay as they are. */
  lemma UpdatedWithoutStep(s: LayerState, input: Vector, learningRate: real)
    requires IsMatrix(s.weights, |input|, |s.delta|) && |s.biases| == |s.delta|
    requires learningRate == 0.0 || IsZero(s.delta)
    ensures Updated(s, input, learningRate) == s
  {
    var r := Updated(s, input, learningRate);
    UpdatedEntries(s, input, learningRate);
    forall k, c | 0 <= k < |input| && 0 <= c < |s.delta|
      ensures r.weights[k][c] == s.weights[k][c]
    {
      NoStep(s.weights[k][c], learningRate, input[k] * s.delta[c], s.delta[c]);
    }
    forall c | 0 <= c < |s.delta| ensures r.biases[c] == s.biases[c] {
      NoStep(s.biases[c], learningRate, s.delta[c], s.delta[c]);
    }
    assert forall k | 0 <= k < |input| :: r.weights[k] == s.weights[k];
  }

  lemma NoStep(w: real, learningRate: real, g: real, d: real)
    requires learningRate == 0.0 || d == 0.0
    requires d == 0.0 ==> g == 0.0
    ensures w - learningRate * g == w
  {
  }

  /** A layer object. `inputSize` and `neurons` are the matrix dimensions
      that Eigen keeps with the matrix; the activation pair is fixed at
      construction. */
  class Layer {
    const inputSize: nat
    const neurons: nat
    const activation: real -> real
    const activationDerivative: real -> real
    var weights: Matrix
    var biases: Vector
    var neuronsValues: Vector
    var neuronsValuesActivate: Vector
    var delta: Vector

    /** The shape invariant: weights are inputSize × neurons and biases has
        one entry per neuron. */
    ghost predicate Valid()
      reads this
    {
      IsMatrix(weights, inputSize, neurons) && |biases| == neurons
    }

    function State(): (s: LayerState)
      reads this
    {
      LayerState(weights, biases, neuronsValues, neuronsValuesActivate, delta,
                 Activation(activation, activationDerivative))
    }

    /** `initialWeights` stands for `MatrixXd::Random`: any matrix of the right
        shape. The caches and the delta start as empty vectors, as
        default-constructed Eigen vectors do. */
    constructor (inputSize: nat, neurons: nat, activation: real -> real,
                 activationDerivative: real -> real, initialWeights: Matrix)
      requires IsMatrix(initialWeights, inputSize, neurons)
      ensures Valid()
      ensures this.inputSize == inputSize && this.neurons == neurons
      ensures State() == LayerState(initialWeights, Zeros(neurons), [], [], [],
                                    Activation(activation, activationDerivative))
    {
      this.inputSize := inputSize;
      this.neurons := neurons;
      this.activation := activation;
      this.activationDerivative := activationDerivative;
      weights := initialWeights;
      biases := Zeros(neurons);
      neuronsValues := [];
      neuronsValuesActivate := [];
      delta := [];
    }

    method Forward(input: Vector)
      requires Valid() && |input| == inputSize
      modifies this`neuronsValues, this`neuronsValuesActivate
      ensures Valid()
      ensures State() == Forwarded(old(State()), input)
    {
      var y := Affine(weights, input, biases);
      neuronsValues := y;
      neuronsValuesActivate := Map(activation, y);
    }

    function GetNeuronsValuesActivate(): (a: Vector)
      reads this
      ensures a == State().neuronsValuesActivate
    {
      neuronsValuesActivate
    }

    method SetDelta(d: Vector)
      modifies this`delta
      ensures old(Valid()) ==> Valid()
      ensures State() == WithDelta(old(State()), d)
      ensures GetDelta() == d
    {
      delta := d;
    }

    function GetDelta(): (d: Vector)
      reads this
      ensures d == State().delta
    {
      delta
    }

    function GetWeights(): (w: Matrix)
      reads this
      ensures w == State().weights
    {
      weights
    }

    method UpdateWeights(input: Vector, learningRate: real)
      requires Valid() && |input| == inputSize && |delta| == neurons
      modifies this`weights, this`biases
      ensures Valid()
      ensures State() == Updated(old(State()), input, learningRate)
    {
      weights := MatSub(weights, MatScale(learningRate, Outer(input, delta)));
      biases := Sub(biases, Scale(learningRate, delta));
    }

    /** The activation derivative of the cached pre-activation (not of the
        activated output). */
    function DerivativeOfActivationFunction(): (d: Vector)
      requires Valid()
      reads this
      ensures |d| == |neuronsValues|
      ensures d == Derivative(State())
    {
      Map(activationDerivative, neuronsValues)
    }
  }
}
