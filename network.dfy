/**
  The network object: its stored fields, its two constructors, weight lookup, the
  forward pass and export.
 */
module FeedForward {
  import opened Wrappers
  import opened Layout
  import opened Forward
  import opened Codec

  /** Counts the parameters a topology needs, layer pair by layer pair: each pair's weight
      block and the lower layer's bias block, then the last layer's bias block. */
  method CountWeights(sizes: array<int>) returns (totalWeights: int)
    requires sizes.Length >= 1
    ensures totalWeights == ParameterCount(sizes[..])
  {
    totalWeights := 0;
    for k := 0 to sizes.Length - 1
      invariant totalWeights == Products(sizes[..], k) + Widths(sizes[..], k)
    {
      totalWeights := totalWeights + sizes[k] * sizes[k + 1];
      totalWeights := totalWeights + sizes[k];
    }
    totalWeights := totalWeights + sizes[sizes.Length - 1];
  }

  /** A fresh parameter vector for the topology, every entry drawn from [-1, 1). */
  method GenerateRandomWeights(sizes: array<int>) returns (weights: array<real>)
    requires IsTopology(sizes[..])
    ensures fresh(weights)
    ensures weights.Length == ParameterCount(sizes[..])
    ensures forall k :: 0 <= k < weights.Length ==> -1.0 <= weights[k] < 1.0
  {
    var totalWeights := CountWeights(sizes);
    ProductsGrow(sizes[..], 0, sizes.Length - 1);
    WidthsGrow(sizes[..], 0, sizes.Length);
    var lowest, highest := -1.0, 1.0;
    weights := new real[totalWeights];
    for k := 0 to totalWeights
      invariant forall j :: 0 <= j < k ==> -1.0 <= weights[j] < 1.0
    {
      var draw :| 0.0 <= draw < 1.0;
      weights[k] := lowest + (highest - lowest) * draw;
    }
  }

  /** Overwrites the first n entries of `dst` with the first n entries of `src`. */
  method CopyPrefix(src: array<real>, dst: array<real>, n: int)
    requires 0 <= n <= src.Length && n <= dst.Length && src != dst
    modifies dst
    ensures dst[..] == src[..n] + old(dst[..])[n..]
  {
    for a := 0 to n
      invariant dst[..] == src[..a] + old(dst[..])[a..]
    {
      dst[a] := src[a];
    }
  }

  class FeedForwardNetwork {
    var momentum: real
    var learningRate: real
    var weights: array<real>
    var hiddenLayers: int
    var sizes: array<int>
    var biggestSize: int
    var activation: Activation

    /** What the network stores, as a value. */
    function State(): Snapshot
      reads this, sizes, weights
    {
      Snapshot(momentum, learningRate, hiddenLayers, activation, sizes[..], weights[..])
    }

    /** The fields agree: the sizes fit the hidden-layer count, the weights fit the sizes,
        and biggestSize is the widest layer. */
    ghost predicate Valid()
      reads this, sizes, weights
    {
      WellFormed(State()) && IsWidest(sizes[..], biggestSize)
    }

    /** A network with the given topology and configuration and fresh random weights.
        The sizes array is kept, not copied. */
    constructor (hiddenLayers: int, sizes: array<int>, activation: Activation, momentum: real, learningRate: real)
      requires sizes.Length == hiddenLayers + 2 && IsTopology(sizes[..])
      ensures Valid() && fresh(weights)
      ensures this.sizes == sizes && this.hiddenLayers == hiddenLayers && this.activation == activation
      ensures this.momentum == momentum && this.learningRate == learningRate
      ensures forall k :: 0 <= k < weights.Length ==> -1.0 <= weights[k] < 1.0
    {
      this.hiddenLayers := hiddenLayers;
      this.sizes := sizes;
      this.activation := activation;
      this.momentum := momentum;
      this.learningRate := learningRate;

      var biggest := 0;
      for k := 0 to sizes.Length
        invariant IsWidest(sizes[..k], biggest)
      {
        if sizes[k] > biggest {
          biggest := sizes[k];
        }
      }
      assert sizes[..sizes.Length] == sizes[..];
      biggestSize := biggest;
      var generated := GenerateRandomWeights(sizes);
      weights := generated;
    }

    /** The fields as the file constructor assigns them once its checks have passed. */
    constructor Assemble(x: Snapshot, sizes: array<int>, biggestSize: int, weights: array<real>)
      requires sizes[..] == x.sizes && weights[..] == x.weights
      ensures this.sizes == sizes && this.weights == weights && this.biggestSize == biggestSize
      ensures State() == x
    {
      this.momentum := x.momentum;
      this.learningRate := x.learningRate;
      this.hiddenLayers := x.hiddenLayers;
      this.activation := x.activation;
      this.sizes := sizes;
      this.biggestSize := biggestSize;
      this.weights := weights;
    }

    /** The weight from unit `start` of layer `layerStart` to unit `end` of layer `layerEnd`,
        or, when `layerStart` is -1, the bias weight of unit `end` of layer `layerEnd`. */
    method GetWeight(layerStart: int, start: int, layerEnd: int, end: int) returns (w: real)
      requires Valid()
      requires layerStart == -1 || InRange(sizes[..], Weight(layerStart, start, end))
      requires layerStart == -1 ==> InRange(sizes[..], Bias(layerEnd, end))
      requires layerStart != -1 ==> layerEnd == layerStart + 1
      ensures layerStart != -1 ==> w == WeightAt(sizes[..], weights[..], layerStart, start, end)
      ensures layerStart == -1 ==> w == BiasAt(sizes[..], weights[..], layerEnd, end)
    {
      if layerStart != -1 {
        var index := 0;
        for k := 0 to layerStart
          invariant index == Products(sizes[..], k)
        {
          index := index + sizes[k] * sizes[k + 1];
        }
        index := index + start * sizes[layerEnd];
        index := index + end;
        WeightIndexInRange(sizes[..], layerStart, start, end);
        return weights[index];
      } else {
        var index := 0;
        for k := 0 to hiddenLayers + 1
          invariant index == Products(sizes[..], k)
        {
          index := index + sizes[k] * sizes[k + 1];
        }
        for k := 0 to layerEnd
          invariant index == Interlayer(sizes[..]) + Widths(sizes[..], k)
        {
          index := index + sizes[k];
        }
        index := index + end;
        BiasIndexInRange(sizes[..], layerEnd, end);
        return weights[index];
      }
    }

    /** The activation of unit `a` of layer k: the first `lastLayer` scratch entries (the
        activations of layer k-1) times their weights, plus the constant bias input times the
        unit's bias weight, passed through the activation function. */
    method UnitOutput(layerOut: array<real>, lastLayer: int, k: int, a: int, exp: Exp) returns (y: real)
      requires Valid()
      requires 1 <= k < sizes.Length && 0 <= a < sizes[k] && lastLayer == sizes[k - 1] <= layerOut.Length
      ensures y == Unit(sizes[..], weights[..], activation, exp, layerOut[..lastLayer], k, a)
    {
      ghost var s, w, prev := sizes[..], weights[..], layerOut[..lastLayer];
      var sum := 0.0;
      for t := 0 to lastLayer
        invariant sum == Dot(s, w, prev, k, a, t)
      {
        var weight := GetWeight(k - 1, t, k, a);
        sum := sum + layerOut[t] * weight;
      }
      var bias := GetWeight(-1, 0, k, a);
      sum := sum + BiasNum * bias;
      assert sum == Net(s, w, prev, k, a);
      y := Apply(activation, sum, exp);
    }

    /** The activations of layer k computed into a fresh array, from the activations of
        layer k-1 held in the first `lastLayer` scratch entries. */
    method ComputeLayer(layerOut: array<real>, lastLayer: int, k: int, exp: Exp) returns (tempOut: array<real>)
      requires Valid()
      requires 1 <= k < sizes.Length && lastLayer == sizes[k - 1] <= layerOut.Length
      ensures fresh(tempOut)
      ensures tempOut[..] == Layer(sizes[..], weights[..], activation, exp, layerOut[..lastLayer], k)
    {
      ghost var s, w, act, prev := sizes[..], weights[..], activation, layerOut[..lastLayer];
      tempOut := new real[sizes[k]](_ => 0.0);
      for a := 0 to sizes[k]
        modifies tempOut
        invariant unchanged(this, sizes, weights, layerOut)
        invariant tempOut[..a] == LayerPrefix(s, w, act, exp, prev, k, a)
      {
        var y := UnitOutput(layerOut, lastLayer, k, a, exp);
        tempOut[a] := y;
        assert tempOut[..a + 1] == tempOut[..a] + [y];
      }
      assert tempOut[..] == tempOut[..sizes[k]];
    }

    /** One pass of the outer loop of the forward pass: layer k is computed from the
        activations of layer k-1 at the front of the scratch buffer, then copied over them. */
    method ForwardLayer(layerOut: array<real>, k: int, exp: Exp, ghost input: seq<real>)
      requires Valid() && |input| == sizes[0]
      requires 1 <= k < sizes.Length && layerOut != weights
      requires layerOut[..] == Buffer(sizes[..], weights[..], activation, exp, input, biggestSize, k - 1)
      modifies layerOut
      ensures layerOut[..] == Buffer(sizes[..], weights[..], activation, exp, input, biggestSize, k)
    {
      var lastLayer := sizes[k - 1];
      var tempOut := ComputeLayer(layerOut, lastLayer, k, exp);
      lastLayer := sizes[k];
      CopyPrefix(tempOut, layerOut, lastLayer);
      assert tempOut[..lastLayer] == tempOut[..];
    }

    /** The outer loop of the forward pass: starting from the buffer that holds the input,
        layers 1 to the output layer are computed in turn. */
    method ForwardPass(layerOut: array<real>, exp: Exp, ghost input: seq<real>)
      requires Valid() && |input| == sizes[0] && layerOut != weights
      requires layerOut[..] == Buffer(sizes[..], weights[..], activation, exp, input, biggestSize, 0)
      modifies layerOut
      ensures layerOut[..] == Buffer(sizes[..], weights[..], activation, exp, input, biggestSize, sizes.Length - 1)
    {
      for k := 1 to hiddenLayers + 2
        modifies layerOut
        invariant unchanged(this, sizes, weights)
        invariant layerOut[..] == Buffer(sizes[..], weights[..], activation, exp, input, biggestSize, k - 1)
      {
        ForwardLayer(layerOut, k, exp, input);
      }
    }

    /** The forward pass. An input whose length is not the input layer's width is refused
        before anything is allocated. Otherwise the result is the whole scratch buffer of
        biggestSize entries, whose first entries are the last layer's activations. */
    method Compute(inputs: array<real>, exp: Exp) returns (r: Option<array<real>>)
      requires Valid()
      ensures r.None? <==> inputs.Length != sizes[0]
      ensures r.Some? ==> fresh(r.value) && r.value.Length == biggestSize
      ensures r.Some? ==> r.value[..] == Buffer(sizes[..], weights[..], activation, exp, inputs[..], biggestSize, sizes.Length - 1)
      ensures r.Some? ==> r.value[..sizes[sizes.Length - 1]] == Output(sizes[..], weights[..], activation, exp, inputs[..])
    {
      if inputs.Length != sizes[0] {
        return None;
      }
      var lastLayer := sizes[0];
      var layerOut := new real[biggestSize](_ => 0.0);
      CopyPrefix(inputs, layerOut, lastLayer);
      ForwardPass(layerOut, exp, inputs[..]);
      OutputInBuffer(sizes[..], weights[..], activation, exp, inputs[..], biggestSize, sizes.Length - 1, layerOut[..]);
      return Some(layerOut);
    }

    /** The network object for this network; importing it gives back this network's state. */
    function Export(): (net: NetJson)
      reads this, sizes, weights
      requires Valid()
      ensures net.weights == Some(weights[..])
      ensures Decode(net, []) == Success(State())
    {
      DecodeEncode(State(), []);
      Encode(State())
    }
  }

  /** Copies the layer widths of a network object into a fresh array, keeping the largest
      width seen (0 when every width is smaller). */
  method ReadSizes(sizeArray: seq<int>) returns (sizes: array<int>, biggestSize: int)
    ensures fresh(sizes) && sizes[..] == sizeArray
    ensures IsWidest(sizeArray, biggestSize)
  {
    sizes := new int[|sizeArray|];
    biggestSize := 0;
    for k := 0 to |sizeArray|
      invariant sizes[..k] == sizeArray[..k]
      invariant IsWidest(sizeArray[..k], biggestSize)
    {
      var size := sizeArray[k];
      sizes[k] := size;
      if size > biggestSize {
        biggestSize := size;
      }
    }
    assert sizeArray[..|sizeArray|] == sizeArray;
  }

  /** Copies the weights of a network object into a fresh array. */
  method ReadWeights(weightArray: seq<real>) returns (weights: array<real>)
    ensures fresh(weights) && weights[..] == weightArray
  {
    weights := new real[|weightArray|];
    for k := 0 to |weightArray|
      invariant weights[..k] == weightArray[..k]
    {
      weights[k] := weightArray[k];
    }
  }

  /** The file constructor: checks the activation tag, the number of sizes and, when the
      object carries weights, their number; copies sizes and weights verbatim, or generates
      random weights when there are none. A refused object yields the first failed check. */
  method FromJson(net: NetJson) returns (r: Result<FeedForwardNetwork, ConfigError>)
    ensures r.Failure? ==> forall fill :: Decode(net, fill) == Failure(r.error)
    ensures r.Success? ==> fresh(r.value) && fresh(r.value.sizes) && fresh(r.value.weights) && r.value.Valid()
    ensures r.Success? ==> Decode(net, r.value.weights[..]) == Success(r.value.State())
    ensures r.Success? && net.weights.None? ==>
      forall k :: 0 <= k < r.value.weights.Length ==> -1.0 <= r.value.weights[k] < 1.0
  {
    var activation: Activation;
    match ParseActivation(net.activationFunction) {
      case None => return Failure(IllegalActivation);
      case Some(act) => activation := act;
    }

    if |net.sizes| != net.hiddenLayers + 2 {
      return Failure(IllegalSizeCount);
    }
    if |net.sizes| == 0 {
      return Failure(NoLayers);
    }
    var sizes, biggestSize := ReadSizes(net.sizes);
    if exists k :: 0 <= k < sizes.Length && sizes[k] < 0 {
      return Failure(NegativeSize);
    }
    assert IsTopology(sizes[..]);

    var weights: array<real>;
    match net.weights {
      case Some(weightArray) =>
        var totalWeights := CountWeights(sizes);
        if |weightArray| != totalWeights {
          return Failure(IllegalWeightCount);
        }
        weights := ReadWeights(weightArray);
      case None =>
        weights := GenerateRandomWeights(sizes);
    }
    var x := Snapshot(net.momentum, net.learningRate, net.hiddenLayers, activation, sizes[..], weights[..]);
    assert WellFormed(x);
    var network := new FeedForwardNetwork.Assemble(x, sizes, biggestSize, weights);
    return Success(network);
  }
}
