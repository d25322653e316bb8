# A verified model of neural_network_from_scratch

This is a Dafny model of a small feed-forward neural network. The network is
trained by gradient descent on MNIST digits. The model covers:

- **functions.h.** The sigmoid activation and its derivative, the squared
  error loss and its gradient (`Functions`).
- **layer.h.** One fully connected layer (`Layers`):
  - `LayerState` holds the layer's fields as a value, and the transition
    functions `Forwarded`, `WithDelta` and `Updated` act on it.
  - The class `Layer` keeps those fields. Each of its methods is proved to
    perform the matching transition.
- **neural_network.h.** The network (`NetworkSpec`, `Network`):
  - `NetworkSpec` states what a forward pass, a backward pass, a training run
    and a test run do to a chain of layer states, and proves their
    properties.
  - The class `NeuralNetwork` runs the same loops as the C++ class. Each of
    its methods is proved to leave exactly the states the `NetworkSpec`
    functions compute.
- **utils.h.** The four IDX readers (`Mnist`):
  - A file is its byte contents, or `None` when it cannot be opened.
  - Each reader appends the decoded vectors to its `data` argument and
    returns the result.
  - The readers are proved to compute `Images` and `Labels`. These decode
    the big-endian header and the pixel or label bytes.

`linalg.dfy` holds the part of Eigen that the code uses: vectors and
matrices as sequences, the matrix products, `squaredNorm`, `cwiseProduct`
and `maxCoeff`. `options.dfy` holds `Option`, and `loops.dfy` the iteration
count of a `for` loop.

## Model

| member | source | states |
|---|---|---|
| Functions.Sigmoid | functions.h:10-12 | has the input's length, and entry `i` is the logistic function of input entry `i` |
| Functions.SigmoidDerivative | functions.h:14-16 | has the input's length, and entry `i` is `s * (1 - s)` where `s` is the sigmoid's entry `i` |
| Functions.SigmoidDerivativeElementwise | functions.h:14-16 | the sigmoid derivative maps each entry on its own, so a layer can use it as its element-wise activation derivative |
| Functions.SigmoidDerivativeBounds | functions.h:14-16 | wherever the logistic value lies in [0, 1], the derivative lies in [0, 1/4] |
| Functions.ErrorFunction | functions.h:18-20 | no contract of its own; characterised by ErrorFunctionNonNegative and ErrorFunctionDerivativeIsGradient |
| Functions.ErrorFunctionNonNegative | functions.h:18-20 | the loss `0.5 * ‖output - target‖²` is never negative, and it is 0 when the output equals the target |
| Functions.ErrorFunctionDerivative | functions.h:22-24 | has the output's length, and entry `i` is `output[i] - target[i]` |
| Functions.ErrorFunctionDerivativeZero | functions.h:22-24 | the gradient is the zero vector if and only if the output equals the target |
| Functions.ErrorFunctionDerivativeIsGradient | functions.h:18-24 | the gradient is the loss's exact derivative: moving output `i` by `h` changes the loss by `h` times gradient entry `i`, plus `h²/2` |
| Layers.Layer.constructor | layer.h:25-32 | gives weights of shape inputs × neurons from the random initialiser, zero biases, the given activation pair, and empty caches and delta |
| Layers.Forwarded | layer.h:34-38 | a forward pass caches the pre-activation and its activation, one entry per neuron; the activated cache is the activation of the pre-activation; weights, biases, delta and activations are unchanged |
| Layers.ForwardedEntry | layer.h:35 | pre-activation entry `c` is the sum over `r` of `weights[r][c] * input[r]`, plus `biases[c]`, i.e. `Wᵀx + b` |
| Layers.ForwardedIdempotent | layer.h:34-38 | a second forward pass on the same input changes nothing |
| Layers.ForwardedOverwrites | layer.h:34-38 | a forward pass overwrites both caches: states that differ only in their caches end up equal |
| Layers.Layer.Forward | layer.h:34-38 | keeps the shape invariant and leaves the state `Forwarded` gives from the old state |
| Layers.Layer.GetNeuronsValuesActivate | layer.h:41-43 | returns the activated cache of the layer's state |
| Layers.WithDelta | layer.h:45-47 | no contract of its own: the state with only the delta replaced; Layer.SetDelta is proved to perform it |
| Layers.Layer.SetDelta | layer.h:45-47 | leaves the state with only the delta replaced, and the delta reads back as given |
| Layers.Layer.GetDelta | layer.h:49-51 | returns the delta of the layer's state |
| Layers.Layer.GetWeights | layer.h:53-55 | returns the weights of the layer's state |
| Layers.Updated | layer.h:57-60 | the gradient step keeps the shapes, caches, delta and activations |
| Layers.UpdatedEntries | layer.h:57-60 | weight `[r][c]` moves by `-rate * input[r] * delta[c]`, and bias `c` by `-rate * delta[c]` |
| Layers.UpdatedWithoutStep | layer.h:57-60 | with a zero learning rate or a zero delta the layer is unchanged |
| Layers.Layer.UpdateWeights | layer.h:57-60 | keeps the shape invariant and leaves the state `Updated` gives from the old state |
| Layers.Derivative | layer.h:62-64 | one entry per cached pre-activation; DerivativeAfterForward states where it is taken |
| Layers.DerivativeAfterForward | layer.h:62-64 | after a forward pass the derivative is taken at the pre-activation `Wᵀx + b`, not at the activated output |
| Layers.Layer.DerivativeOfActivationFunction | layer.h:62-64 | the activation derivative applied to the cached pre-activation, one entry per cached value |
| Network.NeuralNetwork.constructor | neural_network.h:19 | the network holds the given layers, and its ghost sizes are those the layers' parameters give |
| NetworkSpec.ForwardAll | neural_network.h:22-27 | one state per layer; characterised by ForwardAllAt, ForwardAllEnds, ForwardAllChain and ForwardAllShape |
| NetworkSpec.ForwardAllAt | neural_network.h:22-27 | after `forward(x)` layer `j` has run its own forward pass on the signal the first `j` layers make of `x` |
| NetworkSpec.ForwardAllEnds | neural_network.h:22-27 | layer 0 consumes the input, and the last layer's activated cache is the network's output on `x` |
| NetworkSpec.ForwardAllChain | neural_network.h:24-26 | every later layer consumes the activated cache its predecessor was just given |
| NetworkSpec.ForwardPrefixStep | neural_network.h:24-26 | the forward pass proceeds one layer at a time, layer `k` after the first `k` |
| NetworkSpec.ForwardAllShape | neural_network.h:22-27 | a forward pass fills every cache to its layer's size and changes no parameter and no delta |
| NetworkSpec.SignalOfParameters | neural_network.h:22-27 | the signal reaching a layer depends only on the layers' parameters, not on their caches or deltas |
| NetworkSpec.ForwardAllOverwrites | neural_network.h:22-27 | a forward pass after any other forward pass, on any input, leaves what a single pass leaves |
| NetworkSpec.ForwardAllIdempotent | neural_network.h:22-27 | calling `forward` twice with the same input equals calling it once |
| NetworkSpec.OutputAfterForward | neural_network.h:22-31 | a forward pass does not change what the network computes on any input |
| Network.NeuralNetwork.Forward | neural_network.h:22-27 | leaves the layer states `ForwardAll` gives, all caches filled, and `get_output` then returns the network's output on the input |
| Network.NeuralNetwork.GetOutput | neural_network.h:29-31 | after a forward pass, the output has one entry per neuron of the last layer |
| NetworkSpec.Deltas | neural_network.h:34-47 | the delta of layer `j` has one entry per neuron of layer `j`; its values are given by BackwardAllOutputDelta and BackwardAllHiddenDelta |
| NetworkSpec.BackwardAll | neural_network.h:33-60 | one state per layer; characterised by BackwardAllAt, BackwardAllShape, BackwardAllStep and BackwardAllWithoutStep |
| NetworkSpec.BackwardAllAt | neural_network.h:33-60 | after `backward` every layer holds its delta and has taken its gradient step |
| NetworkSpec.BackwardAllShape | neural_network.h:33-60 | a backward pass keeps every shape, cache and activation, and leaves in each layer the delta `Deltas` computes |
| NetworkSpec.BackwardAllOutputDelta | neural_network.h:34-37 | the output layer's delta is `(output - target) ⊙ f'(z)`, where `z` is its cached pre-activation |
| NetworkSpec.BackwardAllHiddenDelta | neural_network.h:39-47 | each hidden delta is `(W_{j+1} · delta_{j+1}) ⊙ f'(z_j)`, using the weights as the pass found them |
| NetworkSpec.BackwardAllStep | neural_network.h:49-59 | each layer's step pairs its new delta with the input it was fed: the network input for layer 0, else the predecessor's unchanged activated cache |
| NetworkSpec.BackwardAllWithoutStep | neural_network.h:33-60 | with a zero learning rate a backward pass only records the deltas |
| Network.NeuralNetwork.Backward | neural_network.h:33-60 | after a forward pass, leaves exactly the layer states `BackwardAll` gives |
| Network.NeuralNetwork.SetDeltas | neural_network.h:34-47 | the delta loop from the output layer down leaves every layer with its `Deltas` delta and nothing else changed |
| Network.NeuralNetwork.UpdateAll | neural_network.h:49-59 | the update loop, first layer to last, completes the states `BackwardAll` gives |
| NetworkSpec.TrainStep | neural_network.h:73-79 | one training sample (forward, then backward) keeps the chain of sizes |
| NetworkSpec.Trainer | neural_network.h:73-79 | the training step, as a function of state and sample, keeps every chain's sizes and is `TrainStep` on every fitting sample |
| NetworkSpec.LossFromNonNegative | neural_network.h:67-80 | the summed loss of an epoch's samples is never negative |
| NetworkSpec.EpochLoss | neural_network.h:81 | no contract of its own; characterised by EpochLossNonNegative |
| NetworkSpec.EpochLossNonNegative | neural_network.h:67-81 | an epoch reports a loss if and only if it has samples, and that loss is never negative |
| NetworkSpec.TrainLosses | neural_network.h:62-85 | one reported loss per epoch run |
| NetworkSpec.TrainLossesAt | neural_network.h:62-85 | the loss of epoch `q` is the mean loss over the samples, starting from the state the earlier epochs left |
| NetworkSpec.TrainLossesNonNegative | neural_network.h:62-85 | every reported loss is present and non-negative when there are samples, and absent when there are none |
| NetworkSpec.ScheduleEpoch | neural_network.h:66-69 | epoch `q` covers steps `q·n` to `q·n + n` and visits samples `0 .. n-1` in index order |
| NetworkSpec.StepsAppend | neural_network.h:66-80 | training on the samples of `a + b` is training on those of `a`, then on those of `b` |
| NetworkSpec.EpochStateIsSteps | neural_network.h:69-80 | the first `k` samples of an epoch are the training steps on samples `0 .. k-1` |
| NetworkSpec.TrainStateIsSchedule | neural_network.h:62-85 | `e` epochs take `e · n` training steps, each epoch visiting the samples in index order |
| Network.NeuralNetwork.Train | neural_network.h:62-85 | runs `epochs` epochs, none when `epochs <= 0`, leaving the states after that many epochs of `TrainStep`, and returns the per-epoch losses the source prints |
| Network.NeuralNetwork.RunEpoch | neural_network.h:67-80 | one epoch trains on every sample in order and returns the sum of the losses, each taken before that sample's backward pass |
| Network.NeuralNetwork.TrainOn | neural_network.h:70-79 | one sample takes one training step and returns the loss of the network's output on the sample before the step |
| LinAlg.FirstArgMax | neural_network.h:102-103 | `maxCoeff(&index)`: an index holding the maximum, with every earlier entry strictly smaller |
| NetworkSpec.HitsAt | neural_network.h:92-107 | entry `i` of the hits records whether sample `i`'s output and target peak at the same index |
| NetworkSpec.CountExtremes | neural_network.h:90-107 | a count of hits equals the number of samples if and only if all are hits, and is 0 if and only if none is |
| NetworkSpec.CountCorrectExtremes | neural_network.h:90-107 | the correct count is at most the number of samples; it equals that number if and only if every sample is a hit, and is 0 if and only if none is |
| NetworkSpec.Accuracy | neural_network.h:110 | no contract of its own; characterised by AccuracyBounds |
| NetworkSpec.AccuracyBounds | neural_network.h:110 | the accuracy exists if and only if there are samples and lies in [0, 1]; it is 1 if and only if every sample is a hit, and 0 if and only if none is |
| Network.TestSample | neural_network.h:96-107 | one test sample's forward pass leaves the expected state, and the comparison adds exactly that sample's hit to the count |
| Network.NeuralNetwork.Test | neural_network.h:87-112 | returns the number of hits and the accuracy; the layers keep the caches of the last forward pass |
| Mnist.Int32At | utils.h:20-27 | `ntohl` of four bytes read into an `int` is a 32-bit two's-complement value |
| Mnist.Int32RoundTrip | utils.h:20-27 | reading back the four big-endian bytes written for any 32-bit value gives the value, wherever they sit in the file |
| Mnist.Pixel | utils.h:35 | a pixel, the byte divided by 255, lies in [0, 1] |
| Mnist.Images | utils.h:11-42 | no images for an unopened file, otherwise as many as the header count when it is positive and none otherwise; ImagesShape and ImagesEntry give their sizes and pixels |
| Mnist.ImagesShape | utils.h:11-42 | an unopened file gives no images; otherwise there are as many images as the header count says (none if not positive), each of `rows * cols` pixels when both are positive and of none otherwise |
| Mnist.ImagesEntry | utils.h:29-40 | pixel `k` of image `i` is the byte at offset `16 + i·rows·cols + k` divided by 255, and lies in [0, 1] |
| Mnist.ImagesIgnoreMagic | utils.h:20-21 | the magic number is never checked: files differing only in it give the same images |
| Mnist.ReadMnistTrainData | utils.h:11-42 | appends exactly `Images(file)` to `data`: the image loop runs the header's count of times, none when it is not positive |
| Mnist.ReadImage | utils.h:30-38 | the row and column loops fill the vector with the next `rows * cols` pixels in order and advance the stream past them |
| Mnist.ReadMnistTestData | utils.h:67-97 | appends exactly `Images(file)` to `data` |
| Mnist.OneHot | utils.h:59-61 | a label vector has 10 entries; OneHotEntries gives them |
| Mnist.OneHotEntries | utils.h:59-61 | the label vector is 1 at the digit and 0 elsewhere, so its first maximum is at the digit |
| Mnist.Labels | utils.h:44-65 | no labels for an unopened file, otherwise as many as the header count when it is positive and none otherwise; LabelsShape gives each one |
| Mnist.LabelsShape | utils.h:44-65 | an unopened file gives no labels; otherwise there are as many as the header count says (none if not positive), label `i` being the one-hot vector of byte `8 + i` |
| Mnist.LabelsIgnoreMagic | utils.h:51-52 | the magic number of a label file is never checked either |
| Mnist.ReadMnistTrainLabel | utils.h:44-65 | appends exactly `Labels(file)` to `data`: the label loop runs the header's count of times, none when it is not positive |
| Mnist.ReadMnistTestLabel | utils.h:99-120 | appends exactly `Labels(file)` to `data` |

## Left out

- Sigmoid: the scalar logistic function `1 / (1 + e^-x)` is a parameter, because exponentials over the reals have no exact model. Where a lemma needs its values to lie in [0, 1], it says so in its precondition.
- Activations: a layer's `std::function<VectorXd(const VectorXd&)>` pair is modelled as two scalar functions applied entry by entry. Every activation the program builds (the sigmoid and its derivative) has this form.
- Floating point: `double` is modelled as `real`. Rounding, overflow, NaN propagation and the random initialiser's distribution are not captured.
- Layers.Layer.constructor: `MatrixXd::Random` becomes an `initialWeights` parameter of the right shape.
- Network.NeuralNetwork.Train and Network.NeuralNetwork.Test: the console output is not modelled. The values printed (each epoch's loss, the test accuracy) are returned instead.
- An empty training or test set divides 0 by 0 and prints NaN. The model gives `None` there.
- Network.NeuralNetwork.Forward requires at least one layer, because `layers[0]` is undefined on an empty vector.
- Network.NeuralNetwork.Backward requires the caches of a forward pass and a target of the output's size, because Eigen asserts on mismatched sizes otherwise.
- Network.NeuralNetwork.Train and Network.NeuralNetwork.Test require a target for every input and matching sizes, because the source indexes `target_outputs[i]` unchecked.
- Network.NeuralNetwork.Test requires non-empty targets and, when there is a sample, an output layer with at least one neuron, because `maxCoeff` needs at least one entry. An empty test set needs neither.
- `std::vector<Layer>` holds the layers by value. The class keeps them as a sequence of `LayerState` values and replaces one entry at a time, so aliasing between layer objects is not modelled.
- Helper methods: `SetDeltas` and `UpdateAll` are the two loops of `backward`, the delta phase and the update phase. `RunEpoch`, `TrainOn` and `ReadImage` are the bodies of the source's loops. Some take ghost parameters that exist only to state their contracts.
- File I/O: `std::ifstream` is modelled as the file's bytes, or `None` when it cannot be opened. A read past the end leaves its zeroed destination as it was, which the model captures as bytes beyond the end reading as 0.
- Mnist.ReadMnistTrainData requires a header whose `rows * cols` is 0 or a positive `int`, unless the count is not positive. Other headers give a negative Eigen size, an `int` overflow or uninitialised entries in the source.
- Mnist.ReadMnistTrainLabel requires every label byte it reads to be at most 9, because a larger byte writes outside the 10-entry vector.
- Mnist.ReadMnistTestData and Mnist.ReadMnistTestLabel: the test readers are line-for-line copies of the train readers, so they delegate to them.
- main.cpp (network construction, hyper-parameters, printing) is not part of this model.
- Eigen is not part of this model beyond the operations in `linalg.dfy`.
