/** The network of neural_network.h. Its `std::vector<Layer>` holds the
    layers by value, so the class keeps them as a sequence of layer states
    that its methods replace one entry at a time; each per-layer call
    (`forward`, `set_delta`, `update_weights`) becomes the function that the
    corresponding method of `Layers.Layer` is proved to implement. Every
    method is proved to leave the states that the functions of NetworkSpec
    compute from the states it found. */
module Network {
  import opened Options
  import opened LinAlg
  import opened Functions
  import opened Layers
  import opened NetworkSpec
  import opened Loops

  /** The neuron count of every layer, in order. */
  function NeuronCounts(ss: seq<LayerState>): (n: seq<nat>)
    ensures |n| == |ss| && forall j :: 0 <= j < |ss| ==> n[j] == |ss[j].biases|
  {
    if |ss| == 0 then [] else NeuronCounts(ss[..|ss| - 1]) + [|ss[|ss| - 1].biases|]
  }

  /** The sizes along a chain of layers, read off their parameters: the
      first layer's input count, then every layer's neuron count. */
  function Sizes(ss: seq<LayerState>): (d: seq<nat>)
    requires |ss| > 0
    ensures |d| == |ss| + 1 && d[0] == |ss[0].weights|
    ensures forall j :: 0 <= j < |ss| ==> d[j + 1] == |ss[j].biases|
  {
    [|ss[0].weights|] + NeuronCounts(ss)
  }

  /** A chain of sizes `dims` has exactly those sizes. */
  lemma SizesOfShaped(dims: seq<nat>, ss: seq<LayerState>)
    requires Shaped(dims, ss)
    ensures Sizes(ss) == dims
  {
    var d := Sizes(ss);
    forall k | 0 <= k < |dims| ensures d[k] == dims[k] {
      if k == 0 {
        assert IsMatrix(ss[0].weights, dims[0], dims[1]);
      } else {
        assert |ss[k - 1].biases| == dims[k];
      }
    }
  }

  /** Replacing entry `|p|` of `p + s[|p|..]` by `v` extends the prefix by `v`. */
  lemma Splice<T>(p: seq<T>, s: seq<T>, v: T)
    requires |p| < |s|
    ensures (p + s[|p|..])[|p| := v] == p + [v] + s[|p| + 1..]
  {
    var a, b := (p + s[|p|..])[|p| := v], p + [v] + s[|p| + 1..];
    forall k | 0 <= k < |a| ensures a[k] == b[k] {
      if k > |p| { assert a[k] == s[k]; }
    }
  }

  /** The first step of `forward`: layer 0 runs on the input. */
  lemma ForwardStart(dims: seq<nat>, ss: seq<LayerState>, x: Vector)
    requires Shaped(dims, ss) && |x| == dims[0]
    ensures IsMatrix(ss[0].weights, |x|, |ss[0].biases|)
    ensures ss[0 := Forwarded(ss[0], x)] == ForwardPrefix(dims, ss, x, 1) + ss[1..]
  {
    assert ForwardPrefix(dims, ss, x, 1) == [Forwarded(ss[0], x)];
    Splice([], ss, Forwarded(ss[0], x));
  }

  /** A later step of `forward`: with the first `k` layers already run,
      layer `k` runs on what layer `k - 1` just produced. */
  lemma ForwardStep(dims: seq<nat>, ss: seq<LayerState>, x: Vector, k: nat, ls: seq<LayerState>)
    requires Shaped(dims, ss) && |x| == dims[0] && 0 < k < |ss|
    requires ls == ForwardPrefix(dims, ss, x, k) + ss[k..]
    ensures |ls| == |ss| && IsMatrix(ls[k].weights, |ls[k - 1].neuronsValuesActivate|, |ls[k].biases|)
    ensures ls[k := Forwarded(ls[k], ls[k - 1].neuronsValuesActivate)]
         == ForwardPrefix(dims, ss, x, k + 1) + ss[k + 1..]
  {
    var p := ForwardPrefix(dims, ss, x, k);
    ForwardPrefixStep(dims, ss, x, k);
    assert ls[k] == ss[k] && ls[k - 1] == p[k - 1];
    Splice(p, ss, Forwarded(ss[k], p[k - 1].neuronsValuesActivate));
  }

  /** Once every layer has run, the chain is the forward pass of the spec. */
  lemma ForwardEnd(dims: seq<nat>, ss: seq<LayerState>, x: Vector, k: nat, ls: seq<LayerState>)
    requires Shaped(dims, ss) && |x| == dims[0] && k == |ss|
    requires ls == ForwardPrefix(dims, ss, x, k) + ss[k..]
    ensures ls == ForwardAll(dims, ss, x)
    ensures Shaped(Sizes(ls), ls) && Sizes(ls) == dims && Cached(ls)
    ensures Last(ls).neuronsValuesActivate == Output(dims, ss, x)
  {
    assert ls == ForwardAll(dims, ss, x);
    ForwardAllEnds(dims, ss, x);
    ForwardAllShape(dims, ss, x);
    SizesOfShaped(dims, ls);
  }

  /** The chain once layers `i` to the last have been given their deltas
      and no layer has been updated yet. */
  ghost function DeltaState(dims: seq<nat>, ss: seq<LayerState>, t: Vector, i: nat): (r: seq<LayerState>)
    requires Ready(dims, ss, t) && i <= |ss|
    ensures |r| == |ss|
    decreases |ss| - i
  {
    if i == |ss| then ss else DeltaState(dims, ss, t, i + 1)[i := WithDelta(ss[i], Deltas(dims, ss, t, i))]
  }

  lemma {:induction false} DeltaStateAt(dims: seq<nat>, ss: seq<LayerState>, t: Vector, i: nat, j: nat)
    requires Ready(dims, ss, t) && i <= |ss| && j < |ss|
    ensures DeltaState(dims, ss, t, i)[j] == if j < i then ss[j] else WithDelta(ss[j], Deltas(dims, ss, t, j))
    decreases |ss| - i
  {
    if i < |ss| {
      DeltaStateAt(dims, ss, t, i + 1, j);
    }
  }

  /** The first step of the delta phase: the output layer's delta. */
  lemma DeltaStart(dims: seq<nat>, ss: seq<LayerState>, t: Vector)
    requires Ready(dims, ss, t)
    ensures var l := ss[|ss| - 1];
      |l.neuronsValuesActivate| == |t| && |l.neuronsValuesActivate| == |Derivative(l)|
      && ss[|ss| - 1 := WithDelta(l, Hadamard(ErrorFunctionDerivative(l.neuronsValuesActivate, t), Derivative(l)))]
         == DeltaState(dims, ss, t, |ss| - 1)
  {
  }

  /** A later step of the delta phase: layer `i` takes its delta from the
      weights and the delta of layer `i + 1`. */
  lemma DeltaStep(dims: seq<nat>, ss: seq<LayerState>, t: Vector, i: nat, ls: seq<LayerState>)
    requires Ready(dims, ss, t) && i < |ss| - 1 && ls == DeltaState(dims, ss, t, i + 1)
    ensures |ls| == |ss| && IsMatrix(ls[i + 1].weights, dims[i + 1], |ls[i + 1].delta|)
    ensures |Derivative(ls[i])| == dims[i + 1]
    ensures ls[i := WithDelta(ls[i], Hadamard(MatVec(ls[i + 1].weights, ls[i + 1].delta), Derivative(ls[i])))]
         == DeltaState(dims, ss, t, i)
  {
    DeltaStateAt(dims, ss, t, i + 1, i);
    DeltaStateAt(dims, ss, t, i + 1, i + 1);
  }

  /** The update phase starts from the chain the delta phase left. */
  lemma UpdateStart(dims: seq<nat>, ss: seq<LayerState>, x: Vector, t: Vector, learningRate: real)
    requires Ready(dims, ss, t) && |x| == dims[0]
    ensures BackwardPrefix(dims, ss, x, t, learningRate, 0) + DeltaState(dims, ss, t, 0)[0..]
         == DeltaState(dims, ss, t, 0)
  {
  }

  /** A step of the update phase: with the first `k` layers updated, layer
      `k` takes its gradient step on the input it was fed. */
  lemma UpdateStep(dims: seq<nat>, ss: seq<LayerState>, x: Vector, t: Vector, learningRate: real,
                   k: nat, ls: seq<LayerState>)
    requires Ready(dims, ss, t) && |x| == dims[0] && k < |ss|
    requires ls == BackwardPrefix(dims, ss, x, t, learningRate, k) + DeltaState(dims, ss, t, 0)[k..]
    ensures |ls| == |ss|
    ensures var u := if k == 0 then x else ls[k - 1].neuronsValuesActivate;
      IsMatrix(ls[k].weights, |u|, |ls[k].delta|) && |ls[k].biases| == |ls[k].delta|
      && ls[k := Updated(ls[k], u, learningRate)]
         == BackwardPrefix(dims, ss, x, t, learningRate, k + 1) + DeltaState(dims, ss, t, 0)[k + 1..]
  {
    var p := BackwardPrefix(dims, ss, x, t, learningRate, k);
    var l := LayerBackward(dims, ss, x, t, learningRate, k);
    assert BackwardPrefix(dims, ss, x, t, learningRate, k + 1) == p + [l];
    DeltaStateAt(dims, ss, t, 0, k);
    assert ls[k] == WithDelta(ss[k], Deltas(dims, ss, t, k));
    if k > 0 {
      BackwardPrefixAt(dims, ss, x, t, learningRate, k, k - 1);
      assert ls[k - 1] == LayerBackward(dims, ss, x, t, learningRate, k - 1);
    }
    Splice(p, DeltaState(dims, ss, t, 0), l);
  }

  /** Once every layer has been updated, the chain is the backward pass of
      the spec. */
  lemma BackwardEnd(dims: seq<nat>, ss: seq<LayerState>, x: Vector, t: Vector, learningRate: real,
                    k: nat, ls: seq<LayerState>)
    requires Ready(dims, ss, t) && |x| == dims[0] && k == |ss|
    requires ls == BackwardPrefix(dims, ss, x, t, learningRate, k) + DeltaState(dims, ss, t, 0)[k..]
    ensures ls == BackwardAll(dims, ss, x, t, learningRate)
    ensures Shaped(dims, ls) && Cached(ls)
  {
    assert ls == BackwardAll(dims, ss, x, t, learningRate);
    BackwardAllShape(dims, ss, x, t, learningRate);
  }

  /** `for (epoch = 0; epoch < epochs; ++epoch)` stops after `LoopCount(epochs)` rounds. */
  lemma LoopExit(epoch: int, epochs: int)
    requires 0 <= epoch <= LoopCount(epochs) && epoch >= epochs
    ensures epoch == LoopCount(epochs)
  {
  }

  /** The end of an epoch: the states are the next epoch's start and the
      reported loss is appended to the losses so far. */
  lemma TrainEpoch(dims: seq<nat>, step: Step, ss: seq<LayerState>, inputs: seq<Vector>,
                   targets: seq<Vector>, e: nat, start: seq<LayerState>, after: seq<LayerState>,
                   sum: real, losses: seq<Option<real>>)
    requires KeepsShape(dims, step) && Shaped(dims, ss) && Samples(dims, inputs, targets)
    requires start == TrainState(dims, step, ss, inputs, targets, e)
    requires after == EpochState(dims, step, start, inputs, targets, |inputs|)
    requires sum == LossFrom(dims, step, start, inputs, targets, 0)
    requires losses == TrainLosses(dims, step, ss, inputs, targets, e)
    ensures after == TrainState(dims, step, ss, inputs, targets, e + 1)
    ensures losses + [if |inputs| == 0 then None else Some(sum / (|inputs| as real))]
         == TrainLosses(dims, step, ss, inputs, targets, e + 1)
  {
  }

  /** One sample of `test`: the forward pass leaves the state of the spec,
      and the output it gives is the network's output on the sample, so the
      comparison adds the sample's hit to the count. */
  lemma TestSample(dims: seq<nat>, ss: seq<LayerState>, inputs: seq<Vector>, targets: seq<Vector>,
                   i: nat, before: seq<LayerState>, after: seq<LayerState>, out: Vector, correct: nat)
    requires Shaped(dims, ss) && TestSamples(dims[0], Last(dims), inputs, targets) && i < |inputs|
    requires before == TestState(dims, ss, inputs[..i]) && Shaped(dims, before)
    requires correct == CountCorrect(dims, ss, inputs, targets, i)
    requires after == ForwardAll(dims, before, inputs[i]) && out == Output(dims, before, inputs[i])
    ensures |out| > 0 && after == TestState(dims, ss, inputs[..i + 1])
    ensures correct + (if FirstArgMax(out) == FirstArgMax(targets[i]) then 1 else 0)
         == CountCorrect(dims, ss, inputs, targets, i + 1)
  {
    var x := inputs[i];
    assert Last(inputs[..i + 1]) == x;
    if i > 0 {
      var y := Last(inputs[..i]);
      assert before == ForwardAll(dims, ss, y);
      ForwardAllOverwrites(dims, ss, x, y);
      OutputAfterForward(dims, ss, x, y);
    }
    var h := Hits(dims, ss, inputs, targets, i);
    var h' := Hits(dims, ss, inputs, targets, i + 1);
    assert h' == h + [Hit(dims, ss, x, targets[i])];
    assert h'[..|h'| - 1] == h;
  }

  class NeuralNetwork {
    var layers: seq<LayerState>
    /** The sizes along the chain the network was built with; no method
        changes a layer's shape, so they stay what they were. */
    ghost const dims: seq<nat>

    /** A usable network: at least one layer, and every layer takes as many
        inputs as its predecessor has neurons. */
    ghost predicate Valid()
      reads this
    {
      Shaped(dims, layers)
    }

    constructor (layers: seq<LayerState>)
      ensures this.layers == layers
      ensures |layers| > 0 ==> dims == Sizes(layers)
    {
      this.layers := layers;
      dims := if |layers| > 0 then Sizes(layers) else [];
    }

    /** The last layer's activated cache; after a forward pass it holds one
        entry per output neuron. */
    function GetOutput(): (o: Vector)
      requires |layers| > 0
      reads this
      ensures Cached(layers) ==> |o| == |layers[|layers| - 1].biases|
    {
      Last(layers).neuronsValuesActivate
    }

    /** `forward(input)`: each layer runs its forward pass on what the
        previous one just produced, so the output is what the network
        computes on `input`. */
    method Forward(input: Vector)
      requires Valid() && |input| == dims[0]
      modifies this`layers
      ensures Valid() && Cached(layers)
      ensures layers == ForwardAll(dims, old(layers), input)
      ensures GetOutput() == Output(dims, old(layers), input)
    {
      ghost var ss := layers;
      ForwardStart(dims, ss, input);
      layers := layers[0 := Forwarded(layers[0], input)];
      var i := 1;
      while i < |layers|
        invariant 1 <= i <= |ss| == |layers|
        invariant layers == ForwardPrefix(dims, ss, input, i) + ss[i..]
      {
        ForwardStep(dims, ss, input, i, layers);
        layers := layers[i := Forwarded(layers[i], layers[i - 1].neuronsValuesActivate)];
        i := i + 1;
      }
      ForwardEnd(dims, ss, input, i, layers);
    }

    /** `backward(input, target, learningRate)` after a forward pass: the
        deltas are set from the output layer down, each from the next
        layer's weights as the pass found them, and only then does every
        layer take its gradient step. */
    method Backward(input: Vector, target: Vector, learningRate: real)
      requires Valid() && Cached(layers) && |input| == dims[0] && |target| == Last(dims)
      modifies this`layers
      ensures Valid() && Cached(layers)
      ensures layers == BackwardAll(dims, old(layers), input, target, learningRate)
    {
      ghost var ss := layers;
      SetDeltas(target);
      UpdateAll(input, target, learningRate, ss);
    }

    /** The first phase of `backward`: the output layer's delta, then each
        hidden layer's from its successor's, last to first. */
    method SetDeltas(target: Vector)
      requires Valid() && Cached(layers) && |target| == Last(dims)
      modifies this`layers
      ensures layers == DeltaState(dims, old(layers), target, 0)
    {
      ghost var ss := layers;
      var n := |layers|;
      DeltaStart(dims, ss, target);
      var outputError := ErrorFunctionDerivative(GetOutput(), target);
      var outputDerivative := Derivative(layers[n - 1]);
      var outputDelta := Hadamard(outputError, outputDerivative);
      layers := layers[n - 1 := WithDelta(layers[n - 1], outputDelta)];
      var i := n - 2;
      while i >= 0
        invariant -1 <= i <= n - 2
        invariant layers == DeltaState(dims, ss, target, i + 1)
      {
        DeltaStep(dims, ss, target, i, layers);
        var nextWeights := layers[i + 1].weights;
        var nextDelta := layers[i + 1].delta;
        var hiddenError := MatVec(nextWeights, nextDelta);
        var hiddenDerivative := Derivative(layers[i]);
        var hiddenDelta := Hadamard(hiddenError, hiddenDerivative);
        layers := layers[i := WithDelta(layers[i], hiddenDelta)];
        i := i - 1;
      }
    }

    /** The second phase of `backward`: each layer, first to last, takes its
        gradient step on the input it was fed. */
    method UpdateAll(input: Vector, ghost target: Vector, learningRate: real, ghost ss: seq<LayerState>)
      requires Ready(dims, ss, target) && |input| == dims[0]
      requires layers == DeltaState(dims, ss, target, 0)
      modifies this`layers
      ensures Valid() && Cached(layers)
      ensures layers == BackwardAll(dims, ss, input, target, learningRate)
    {
      UpdateStart(dims, ss, input, target, learningRate);
      var n := |layers|;
      var k := 0;
      while k < n
        invariant 0 <= k <= n == |layers|
        invariant layers == BackwardPrefix(dims, ss, input, target, learningRate, k) + DeltaState(dims, ss, target, 0)[k..]
      {
        UpdateStep(dims, ss, input, target, learningRate, k, layers);
        var layerInput := if k == 0 then input else layers[k - 1].neuronsValuesActivate;
        layers := layers[k := Updated(layers[k], layerInput, learningRate)];
        k := k + 1;
      }
      BackwardEnd(dims, ss, input, target, learningRate, k, layers);
    }

    /** `train(inputs, targets, learningRate, epochs)`: every epoch runs
        forward and backward on each sample in index order and reports the
        mean loss of its samples, each taken before that sample's backward
        pass; the reported losses are returned in order. */
    method Train(inputs: seq<Vector>, targets: seq<Vector>, learningRate: real, epochs: int)
        returns (losses: seq<Option<real>>)
      requires Valid() && Samples(dims, inputs, targets)
      modifies this`layers
      ensures Valid()
      ensures layers == TrainState(dims, Trainer(dims, learningRate), old(layers), inputs, targets, LoopCount(epochs))
      ensures losses == TrainLosses(dims, Trainer(dims, learningRate), old(layers), inputs, targets, LoopCount(epochs))
    {
      ghost var ss := layers;
      ghost var step := Trainer(dims, learningRate);
      losses := [];
      var epoch := 0;
      while epoch < epochs
        invariant 0 <= epoch <= LoopCount(epochs)
        invariant Valid()
        invariant layers == TrainState(dims, step, ss, inputs, targets, epoch)
        invariant losses == TrainLosses(dims, step, ss, inputs, targets, epoch)
      {
        ghost var start := layers;
        var epochLoss := RunEpoch(inputs, targets, learningRate, step);
        TrainEpoch(dims, step, ss, inputs, targets, epoch, start, layers, epochLoss, losses);
        var reported := if |inputs| == 0 then None else Some(epochLoss / (|inputs| as real));
        losses := losses + [reported];
        epoch := epoch + 1;
      }
      LoopExit(epoch, epochs);
    }

    /** The body of one epoch of `train`: forward, loss and backward on each
        sample in index order; the summed loss is returned. `step` is the
        training step, passed in so that the epoch can be stated by it. */
    method RunEpoch(inputs: seq<Vector>, targets: seq<Vector>, learningRate: real, ghost step: Step)
        returns (epochLoss: real)
      requires Valid() && Samples(dims, inputs, targets)
      requires KeepsShape(dims, step) && TrainsWith(dims, learningRate, step)
      modifies this`layers
      ensures Valid()
      ensures layers == EpochState(dims, step, old(layers), inputs, targets, |inputs|)
      ensures epochLoss == LossFrom(dims, step, old(layers), inputs, targets, 0)
    {
      ghost var start := layers;
      epochLoss := 0.0;
      var i := 0;
      while i < |inputs|
        invariant 0 <= i <= |inputs|
        invariant Valid()
        invariant layers == EpochState(dims, step, start, inputs, targets, i)
        invariant epochLoss + LossFrom(dims, step, layers, inputs, targets, i)
               == LossFrom(dims, step, start, inputs, targets, 0)
      {
        var loss := TrainOn(inputs[i], targets[i], learningRate, step);
        epochLoss := epochLoss + loss;
        i := i + 1;
      }
    }

    /** One sample of `train`: forward, the loss of the output, backward. */
    method TrainOn(input: Vector, targetOutput: Vector, learningRate: real, ghost step: Step)
        returns (loss: real)
      requires Valid() && |input| == dims[0] && |targetOutput| == Last(dims)
      requires TrainsWith(dims, learningRate, step)
      modifies this`layers
      ensures Valid()
      ensures layers == step(old(layers), input, targetOutput)
      ensures loss == ErrorFunction(Output(dims, old(layers), input), targetOutput)
    {
      Forward(input);
      var output := GetOutput();
      loss := ErrorFunction(output, targetOutput);
      ForwardAllShape(dims, old(layers), input);
      Backward(input, targetOutput, learningRate);
      assert layers == TrainStep(dims, old(layers), input, targetOutput, learningRate);
    }

    /** `test(inputs, targets)`: forward each sample and count the samples
        whose output and target have their first maximal entry at the same
        index; the count, and the accuracy the source prints, are returned. */
    method Test(inputs: seq<Vector>, targets: seq<Vector>) returns (correct: nat, accuracy: Option<real>)
      requires Valid() && TestSamples(dims[0], Last(dims), inputs, targets)
      modifies this`layers
      ensures Valid()
      ensures correct == CountCorrect(dims, old(layers), inputs, targets, |inputs|)
      ensures accuracy == Accuracy(dims, old(layers), inputs, targets)
      ensures layers == TestState(dims, old(layers), inputs)
    {
      ghost var ss := layers;
      correct := 0;
      var i := 0;
      while i < |inputs|
        invariant 0 <= i <= |inputs|
        invariant Valid()
        invariant layers == TestState(dims, ss, inputs[..i])
        invariant correct == CountCorrect(dims, ss, inputs, targets, i)
      {
        ghost var before := layers;
        var input := inputs[i];
        var targetOutput := targets[i];
        Forward(input);
        var output := GetOutput();
        TestSample(dims, ss, inputs, targets, i, before, layers, output, correct);
        var predictedIndex := FirstArgMax(output);
        var targetIndex := FirstArgMax(targetOutput);
        if predictedIndex == targetIndex {
          correct := correct + 1;
        }
        i := i + 1;
      }
      accuracy := if |inputs| == 0 then None else Some(correct as real / (|inputs| as real));
    }
  }
}
