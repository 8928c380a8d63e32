/**
  The network file's object and its validation. The JSON object is a record here; parsing
  and printing text belong to the JSON library and are not modelled.
 */
module Codec {
  import opened Wrappers
  import opened Layout
  import opened Forward

  /** The fields of a network object as a file holds them; `weights` may be absent. */
  datatype NetJson = NetJson(
    momentum: real,
    learningRate: real,
    hiddenLayers: int,
    activationFunction: string,
    sizes: seq<int>,
    weights: Option<seq<real>>)

  /** The observable state of a network: what it stores and what it exports. */
  datatype Snapshot = Snapshot(
    momentum: real,
    learningRate: real,
    hiddenLayers: int,
    activation: Activation,
    sizes: seq<int>,
    weights: seq<real>)

  /** Why a network object is refused. */
  datatype ConfigError =
    | IllegalActivation    // the tag is neither "LINEAR" nor "LOGISTIC"
    | IllegalSizeCount     // |sizes| differs from hiddenLayers + 2
    | NoLayers             // no layer at all (hiddenLayers == -2)
    | NegativeSize         // a layer of negative width
    | IllegalWeightCount   // the parameter vector does not fit the topology

  /** A network whose stored fields are consistent with each other. */
  predicate WellFormed(x: Snapshot) {
    |x.sizes| == x.hiddenLayers + 2 && IsTopology(x.sizes) && |x.weights| == ParameterCount(x.sizes)
  }

  /** Reads an activation tag; only the two tags the network writes are accepted. */
  function ParseActivation(tag: string): (r: Option<Activation>)
    ensures r.Some? <==> tag == "LINEAR" || tag == "LOGISTIC"
    ensures r.Some? ==> r.value.Name() == tag
  {
    if tag == "LINEAR" then Some(Linear)
    else if tag == "LOGISTIC" then Some(Logistic)
    else None
  }

  /** Builds a network's state from a network object. `fill` is the vector used when the
      object carries no weights (the freshly generated random weights). Checks run in the
      order the constructor makes them and the first one that fails is reported. */
  function Decode(net: NetJson, fill: seq<real>): (r: Result<Snapshot, ConfigError>)
    ensures r.Success? <==>
      && (net.activationFunction == "LINEAR" || net.activationFunction == "LOGISTIC")
      && |net.sizes| == net.hiddenLayers + 2
      && IsTopology(net.sizes)
      && |net.weights.GetOr(fill)| == ParameterCount(net.sizes)
    ensures r.Success? ==> WellFormed(r.value)
    ensures r.Success? ==>
      && r.value.momentum == net.momentum && r.value.learningRate == net.learningRate
      && r.value.hiddenLayers == net.hiddenLayers && r.value.activation.Name() == net.activationFunction
      && r.value.sizes == net.sizes && r.value.weights == net.weights.GetOr(fill)
    ensures r == Failure(IllegalActivation) <==> ParseActivation(net.activationFunction).None?
    ensures ParseActivation(net.activationFunction).Some? && |net.sizes| != net.hiddenLayers + 2 ==>
      r == Failure(IllegalSizeCount)
    ensures ParseActivation(net.activationFunction).Some? && |net.sizes| == net.hiddenLayers + 2 && |net.sizes| == 0 ==>
      r == Failure(NoLayers)
    ensures (ParseActivation(net.activationFunction).Some? && |net.sizes| == net.hiddenLayers + 2 && |net.sizes| > 0 &&
             exists k :: 0 <= k < |net.sizes| && net.sizes[k] < 0) ==>
      r == Failure(NegativeSize)
    ensures (ParseActivation(net.activationFunction).Some? && |net.sizes| == net.hiddenLayers + 2 && IsTopology(net.sizes) &&
             |net.weights.GetOr(fill)| != ParameterCount(net.sizes)) ==>
      r == Failure(IllegalWeightCount)
  {
    match ParseActivation(net.activationFunction)
    case None => Failure(IllegalActivation)
    case Some(act) =>
      if |net.sizes| != net.hiddenLayers + 2 then Failure(IllegalSizeCount)
      else if |net.sizes| == 0 then Failure(NoLayers)
      else if exists k :: 0 <= k < |net.sizes| && net.sizes[k] < 0 then Failure(NegativeSize)
      else
        var weights := net.weights.GetOr(fill);
        if |weights| != ParameterCount(net.sizes) then Failure(IllegalWeightCount)
        else Success(Snapshot(net.momentum, net.learningRate, net.hiddenLayers, act, net.sizes, weights))
  }

  /** The network object export writes: every stored field, the weights always present. */
  function Encode(x: Snapshot): (j: NetJson)
    ensures j.weights.Some?
  {
    NetJson(x.momentum, x.learningRate, x.hiddenLayers, x.activation.Name(), x.sizes, Some(x.weights))
  }

  /** Importing what was exported gives back the same network (whatever `fill` is, since the
      exported object always carries its weights). */
  lemma DecodeEncode(x: Snapshot, fill: seq<real>)
    requires WellFormed(x)
    ensures Decode(Encode(x), fill) == Success(x)
  {
    assert ParseActivation(x.activation.Name()) == Some(x.activation);
  }

  /** Exporting an accepted object that carries its weights gives back the same object. */
  lemma EncodeDecode(net: NetJson, fill: seq<real>)
    requires net.weights.Some? && Decode(net, fill).Success?
    ensures Encode(Decode(net, fill).value) == net
  {
  }
}
