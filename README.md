# Feed-forward neural network, modelled in Dafny

This project models `FeedForwardNeuralNetwork`, a fully connected feed-forward network
with one activation function shared by every layer. The model covers:

- the network's stored fields;
- its two constructors: one from a network JSON object, one from a topology that draws
  random weights;
- the flat parameter vector and how `getWeight` addresses it;
- the forward pass `compute`;
- `export`.

The network is a Dafny class with array fields. The methods mirror the source's loops,
and each is proved against a specification function over values.

Modules:

- `Wrappers` holds `Option` and `Result`.
- `Layout` covers the parameter vector: every interlayer weight block in row-major order,
  followed by one bias block per layer. The input layer has a bias block too, which is
  never read. The module proves that this address map is a bijection onto
  `[0, ParameterCount)`: no two coordinates share an address, and `Locate` inverts it.
- `Forward` holds the value-level forward pass:
  - `Activations` and `Output` give each layer's activations;
  - `Buffer` gives the exact contents of the evaluator's scratch buffer after each layer;
  - `Apply` is the activation function.
- `Codec` covers the network object:
  - `NetJson` is the record a file holds;
  - `Decode` is the file constructor's validation, written as a function;
  - `Encode` is `export`;
  - the round-trip lemmas relate the two.
- `FeedForward` holds the class `FeedForwardNetwork` and the constructor helpers.

Two things the source does are reproduced as written:

- The LOGISTIC activation is `1.0 / (1.0 * e^(-sum))`, which is `e^sum`. It is not
  `1 / (1 + e^(-sum))`. `Forward.LogisticIsExp` and `Forward.LogisticAtZero` state this.
- `compute` returns the whole scratch buffer of `biggestSize` entries. Only the first
  `sizes[last]` entries are the output. Any entries after them are left over from wider
  earlier layers. `Compute` states the exact contents of that buffer.

Two behaviours a reader might not expect, which the model follows:

- Layers of width 0 are accepted, because the code handles them without failing.
- The parameter vector includes a bias block for the input layer. A 2-1 network therefore
  has 5 parameters, not 3 (`Forward.SingleLayerExample`).

## Model

| member | source | states |
|---|---|---|
| Layout.WeightIndexInRange | src/feedforward/FeedForwardNeuralNetwork.java:207-218 | the address getWeight computes for an existing connection lies inside that layer pair's weight block, and so inside the interlayer part and the vector |
| Layout.BiasIndexInRange | src/feedforward/FeedForwardNeuralNetwork.java:220-236 | the address getWeight computes for a bias lies inside that layer's bias block, after every weight block and inside the vector |
| Layout.SlotIndexInRange | src/feedforward/FeedForwardNeuralNetwork.java:205-237 | every existing weight or bias has an address in the vector; it is below the end of the interlayer part if and only if it is a weight |
| Layout.WeightBiasDisjoint | src/feedforward/FeedForwardNeuralNetwork.java:205-237 | no weight address coincides with a bias address |
| Layout.WeightIndexInjective | src/feedforward/FeedForwardNeuralNetwork.java:207-218 | two connections with the same address are the same connection |
| Layout.BiasIndexInjective | src/feedforward/FeedForwardNeuralNetwork.java:220-236 | two units with the same bias address are the same unit |
| Layout.SlotIndexInjective | src/feedforward/FeedForwardNeuralNetwork.java:205-237 | distinct coordinates never share an address |
| Layout.Locate | src/feedforward/FeedForwardNeuralNetwork.java:205-237 | every address in the vector belongs to some existing weight or bias, so the vector has no unused entry |
| Layout.LocateSlotIndex | src/feedforward/FeedForwardNeuralNetwork.java:205-237 | locating the address of an existing weight or bias gives back its coordinates, so the address map is a bijection |
| Layout.ProductsGrow | src/feedforward/FeedForwardNeuralNetwork.java:209-213 | the running sum of weight-block sizes is non-negative and never decreases |
| Layout.WidthsGrow | src/feedforward/FeedForwardNeuralNetwork.java:228-231 | the running sum of layer widths is non-negative and never decreases |
| FeedForward.CountWeights | src/feedforward/FeedForwardNeuralNetwork.java:120-126 | the weight count equals the total of the interlayer blocks plus every layer's bias block, which is the length of the address space |
| FeedForward.GenerateRandomWeights | src/feedforward/FeedForwardNeuralNetwork.java:118-137 | a fresh vector of exactly the parameter count, every entry in [-1, 1) |
| FeedForward.CopyPrefix | src/feedforward/FeedForwardNeuralNetwork.java:177-180 | the first n entries of the destination become those of the source; the rest are unchanged |
| FeedForward.ReadSizes | src/feedforward/FeedForwardNeuralNetwork.java:52-62 | the sizes are copied verbatim, and biggestSize is the widest layer (0 if none is wider) |
| FeedForward.ReadWeights | src/feedforward/FeedForwardNeuralNetwork.java:81-85 | the weights are copied verbatim into a fresh array |
| FeedForward.FromJson | src/feedforward/FeedForwardNeuralNetwork.java:29-96 | the object is refused exactly when Decode refuses it, for the same first reason; an accepted object gives a consistent network whose state is Decode's result; weights absent from the object are drawn from [-1, 1) |
| FeedForward.FeedForwardNetwork.constructor | src/feedforward/FeedForwardNeuralNetwork.java:98-116 | stores the given fields, keeps the sizes array itself, sets biggestSize to the widest layer and fills a fresh, consistent parameter vector from [-1, 1) |
| FeedForward.FeedForwardNetwork.GetWeight | src/feedforward/FeedForwardNeuralNetwork.java:205-237 | with layerStart = -1, the bias of unit end of layer layerEnd; otherwise the weight from unit start of layerStart to unit end of the next layer |
| FeedForward.FeedForwardNetwork.UnitOutput | src/feedforward/FeedForwardNeuralNetwork.java:187-193 | the activation of one unit: its weighted input sum plus its bias, passed through the activation function |
| FeedForward.FeedForwardNetwork.ComputeLayer | src/feedforward/FeedForwardNeuralNetwork.java:184-194 | a fresh array holding every activation of layer k, computed from the previous layer's activations |
| FeedForward.FeedForwardNetwork.ForwardLayer | src/feedforward/FeedForwardNeuralNetwork.java:183-199 | one pass of the layer loop takes the scratch buffer from its contents after layer k-1 to its contents after layer k |
| FeedForward.FeedForwardNetwork.ForwardPass | src/feedforward/FeedForwardNeuralNetwork.java:182-200 | the layer loop takes the scratch buffer from the seeded input to its contents after the last layer |
| FeedForward.FeedForwardNetwork.Compute | src/feedforward/FeedForwardNeuralNetwork.java:167-203 | refuses exactly the inputs of the wrong width; otherwise returns a fresh buffer of biggestSize entries with exactly the contents Buffer gives, whose first entries are the network's output |
| FeedForward.FeedForwardNetwork.Export | src/feedforward/FeedForwardNeuralNetwork.java:145-156 | the exported object always carries the weights; importing it gives back exactly this network's state |
| Forward.Apply | src/feedforward/FeedForwardNeuralNetwork.java:239-252 | LINEAR returns the sum unchanged; LOGISTIC returns a positive value r with r * e^(-sum) = 1 |
| Forward.LogisticIsExp | src/feedforward/FeedForwardNeuralNetwork.java:246-247 | LOGISTIC computes e^sum, not the logistic function |
| Forward.LogisticAtZero | src/feedforward/FeedForwardNeuralNetwork.java:246-247 | LOGISTIC maps a sum of 0 to 1.0, not 0.5 |
| Forward.LayerAt | src/feedforward/FeedForwardNeuralNetwork.java:185-194 | each unit of a layer depends only on the previous layer's activations, not on the units computed before it |
| Forward.BufferHoldsActivations | src/feedforward/FeedForwardNeuralNetwork.java:175-200 | after layer k, the scratch buffer begins with the activations of layer k |
| Forward.OutputInBuffer | src/feedforward/FeedForwardNeuralNetwork.java:182-202 | after the last layer, the scratch buffer begins with the network's output |
| Forward.SingleLayerExample | src/feedforward/FeedForwardNeuralNetwork.java:167-203 | a 2-1 LINEAR network has 5 parameters, and on input (1, 1) it outputs w[0] + w[1] + w[4] |
| Codec.ParseActivation | src/feedforward/FeedForwardNeuralNetwork.java:35-47 | exactly the tags "LINEAR" and "LOGISTIC" are accepted, and each maps to the activation with that name |
| Codec.Decode | src/feedforward/FeedForwardNeuralNetwork.java:29-96 | accepts exactly the objects with a known tag, hiddenLayers + 2 non-negative sizes and a weight vector of the parameter count; copies every field; names the first failed check: unknown tag, then wrong size count, then no layers, then a negative width, then wrong weight count |
| Codec.DecodeEncode | src/feedforward/FeedForwardNeuralNetwork.java:145-156 | importing an exported consistent network gives back the same network |
| Codec.EncodeDecode | src/feedforward/FeedForwardNeuralNetwork.java:145-156 | exporting an accepted object that carries its weights gives back the same object |

## Left out

- Reading from and writing to files, and JSON text: the constructor from a `File`, `getJSONFromFile` and `export(File)` are not modelled. A network object is the record `Codec.NetJson`.
- `ActivationFunction.java` is not part of this model. The enumeration is the closed datatype `Forward.Activation`.
- FeedForward.GenerateRandomWeights: `Random.nextDouble()` is a nondeterministic choice of a value in [0, 1). Its distribution is not modelled.
- Forward.Apply: `Math.pow(Math.E, x)` is the parameter `exp`. The only thing assumed about it is that it is positive. A caller may also assume e^x * e^(-x) = 1, as `Forward.LogisticIsExp` does.
- Doubles are reals, so rounding is not modelled. Java's 32-bit `int` becomes Dafny's unbounded `int`, so an overflowing weight count (`src/feedforward/FeedForwardNeuralNetwork.java:71-77`, `:120-126`) or index (`:209-216`, `:222-233`) is not modelled.
- `momentum` and `learningRate` are stored and exported but otherwise unused, matching the source.
- The fallthrough of `applyActivationFunction` (print, return -9999) cannot be reached with a closed datatype, so it has no model.
- FeedForward.FromJson: for an unknown activation tag (`IllegalActivation`) or a wrong number of weights (`IllegalWeightCount`), the source prints a message and goes on building a partly initialised object; the model returns a typed `ConfigError` instead.
  - `IllegalSizeCount`: the source prints a message, then throws a NullPointerException at `:72` or `:121` because `sizes` stays null.
  - It adds `NoLayers` for `hiddenLayers == -2`, where the source would throw at `:77` or `:126` when it reads `sizes[-1]`.
  - It adds `NegativeSize` for a negative width, where the source would throw or build a network that cannot compute.
- FeedForward.FeedForwardNetwork.Compute: a wrong input width gives `None` instead of printing and returning `null`.
- FeedForward.FeedForwardNetwork.constructor: requires `sizes.Length == hiddenLayers + 2` and no negative width, which the source does not check.
- FeedForward.FeedForwardNetwork.GetWeight: requires coordinates of an existing weight or bias. For a weight it also requires `layerEnd == layerStart + 1`, the only way the forward pass calls it. Other arguments read another address in the source, or throw.
- The forward pass's inner loops are the methods `UnitOutput`, `ComputeLayer`, `ForwardLayer` and `ForwardPass`, nested as the source's loops are.
