/**
  What a forward pass computes, stated over values: the activations of every layer, and
  the scratch buffer the evaluator leaves behind after each layer.
 */
module Forward {
  import opened Layout

  /** The activation functions a network can be configured with. */
  datatype Activation = Linear | Logistic {

    /** The tag that names this activation in a network file. */
    function Name(): string {
      match this
      case Linear => "LINEAR"
      case Logistic => "LOGISTIC"
    }
  }

  /** A strictly positive real. */
  type Positive = r: real | r > 0.0 witness 1.0

  /** Stands for x |-> e^x as the host's floating-point library computes it; only its positivity is relied on. */
  type Exp = real -> Positive

  /** The constant input every bias weight is multiplied by. */
  const BiasNum: real := 1.0

  /** Applies the configured activation to a unit's weighted sum. LOGISTIC is the reciprocal
      of e^(-sum), that is e^sum, and not the usual 1 / (1 + e^(-sum)). */
  function Apply(act: Activation, sum: real, exp: Exp): (r: real)
    ensures act == Linear ==> r == sum
    ensures act == Logistic ==> r > 0.0 && r * exp(-sum) == 1.0
  {
    match act
    case Linear =>
      var slope := 1.0;
      slope * sum
    case Logistic =>
      1.0 / (1.0 * exp(sum * -1.0))
  }

  /** With an exponential that satisfies e^x * e^(-x) = 1, LOGISTIC returns e^sum. */
  lemma LogisticIsExp(sum: real, exp: Exp)
    requires exp(sum) * exp(-sum) == 1.0
    ensures Apply(Logistic, sum, exp) == exp(sum)
  {
    var r := Apply(Logistic, sum, exp);
    assert r * exp(-sum) == exp(sum) * exp(-sum);
  }

  /** A weighted sum of 0 gives 1.0 under LOGISTIC (e^0), where the usual logistic function gives 0.5. */
  lemma LogisticAtZero(exp: Exp)
    requires exp(0.0) == 1.0
    ensures Apply(Logistic, 0.0, exp) == 1.0
  {
    assert -0.0 == 0.0;
  }

  /** A parameter vector that fits the topology. */
  predicate Shaped(s: seq<int>, w: seq<real>) {
    IsTopology(s) && |w| == ParameterCount(s)
  }

  /** The weight from unit `start` of layer `layer` to unit `end` of layer `layer + 1`. */
  function WeightAt(s: seq<int>, w: seq<real>, layer: int, start: int, end: int): real
    requires Shaped(s, w) && InRange(s, Weight(layer, start, end))
  {
    WeightIndexInRange(s, layer, start, end);
    w[WeightIndex(s, layer, start, end)]
  }

  /** The bias weight of unit `unit` of layer `layer`. */
  function BiasAt(s: seq<int>, w: seq<real>, layer: int, unit: int): real
    requires Shaped(s, w) && InRange(s, Bias(layer, unit))
  {
    BiasIndexInRange(s, layer, unit);
    w[BiasIndex(s, layer, unit)]
  }

  /** Sum over t < n of prev[t] times the weight from unit t of layer k-1 to unit a of layer k. */
  function Dot(s: seq<int>, w: seq<real>, prev: seq<real>, k: int, a: int, n: int): real
    requires Shaped(s, w) && 1 <= k < |s| && 0 <= a < s[k] && |prev| == s[k - 1] && 0 <= n <= |prev|
    decreases n
  {
    if n == 0 then 0.0
    else Dot(s, w, prev, k, a, n - 1) + prev[n - 1] * WeightAt(s, w, k - 1, n - 1, a)
  }

  /** The weighted sum reaching unit `a` of layer k: every activation of layer k-1 times its
      weight, plus the constant bias input times the unit's bias weight. */
  function Net(s: seq<int>, w: seq<real>, prev: seq<real>, k: int, a: int): real
    requires Shaped(s, w) && 1 <= k < |s| && 0 <= a < s[k] && |prev| == s[k - 1]
  {
    Dot(s, w, prev, k, a, |prev|) + BiasNum * BiasAt(s, w, k, a)
  }

  /** Activation of unit `a` of layer k, given the activations `prev` of layer k-1. */
  function Unit(s: seq<int>, w: seq<real>, act: Activation, exp: Exp, prev: seq<real>, k: int, a: int): real
    requires Shaped(s, w) && 1 <= k < |s| && 0 <= a < s[k] && |prev| == s[k - 1]
  {
    Apply(act, Net(s, w, prev, k, a), exp)
  }

  /** The activations of the first n units of layer k, given those of layer k-1. */
  function LayerPrefix(s: seq<int>, w: seq<real>, act: Activation, exp: Exp, prev: seq<real>, k: int, n: int): (r: seq<real>)
    requires Shaped(s, w) && 1 <= k < |s| && |prev| == s[k - 1] && 0 <= n <= s[k]
    ensures |r| == n
    decreases n
  {
    if n == 0 then []
    else LayerPrefix(s, w, act, exp, prev, k, n - 1) + [Unit(s, w, act, exp, prev, k, n - 1)]
  }

  /** The activations of layer k, given those of layer k-1. */
  function Layer(s: seq<int>, w: seq<real>, act: Activation, exp: Exp, prev: seq<real>, k: int): (r: seq<real>)
    requires Shaped(s, w) && 1 <= k < |s| && |prev| == s[k - 1]
    ensures |r| == s[k]
  {
    LayerPrefix(s, w, act, exp, prev, k, s[k])
  }

  /** Unit `a` of a layer depends on the previous layer's activations alone, not on the
      units computed before it. */
  lemma {:induction false} LayerAt(s: seq<int>, w: seq<real>, act: Activation, exp: Exp, prev: seq<real>, k: int, n: int, a: int)
    requires Shaped(s, w) && 1 <= k < |s| && |prev| == s[k - 1] && 0 <= a < n <= s[k]
    ensures LayerPrefix(s, w, act, exp, prev, k, n)[a] == Unit(s, w, act, exp, prev, k, a)
    decreases n
  {
    if a < n - 1 {
      LayerAt(s, w, act, exp, prev, k, n - 1, a);
    }
  }

  /** The activations of layer k for the given input; layer 0 is the input itself. */
  function Activations(s: seq<int>, w: seq<real>, act: Activation, exp: Exp, input: seq<real>, k: int): (r: seq<real>)
    requires Shaped(s, w) && |input| == s[0] && 0 <= k < |s|
    ensures |r| == s[k]
    decreases k
  {
    if k == 0 then input
    else Layer(s, w, act, exp, Activations(s, w, act, exp, input, k - 1), k)
  }

  /** The network's output: the activations of the last layer. */
  function Output(s: seq<int>, w: seq<real>, act: Activation, exp: Exp, input: seq<real>): (r: seq<real>)
    requires Shaped(s, w) && |input| == s[0]
    ensures |r| == s[|s| - 1]
  {
    Activations(s, w, act, exp, input, |s| - 1)
  }

  /** n zeros: the contents of a freshly allocated buffer. */
  function Zeros(n: nat): (r: seq<real>)
    ensures |r| == n && forall j :: 0 <= j < n ==> r[j] == 0.0
  {
    if n == 0 then [] else Zeros(n - 1) + [0.0]
  }

  /** The scratch buffer of `width` entries after layer k: the buffer starts as the input
      followed by zeros, and layer k overwrites its first s[k] entries with the activations
      computed from the first s[k-1] entries; whatever wider earlier layers left behind stays. */
  function Buffer(s: seq<int>, w: seq<real>, act: Activation, exp: Exp, input: seq<real>, width: int, k: int): (r: seq<real>)
    requires Shaped(s, w) && |input| == s[0] && 0 <= k < |s| && IsWidest(s, width)
    ensures |r| == width
    decreases k
  {
    if k == 0 then input + Zeros(width - s[0])
    else
      var before := Buffer(s, w, act, exp, input, width, k - 1);
      Layer(s, w, act, exp, before[..s[k - 1]], k) + before[s[k]..]
  }

  /** The buffer after layer k starts with the activations of layer k. */
  lemma {:induction false} BufferHoldsActivations(s: seq<int>, w: seq<real>, act: Activation, exp: Exp, input: seq<real>, width: int, k: int)
    requires Shaped(s, w) && |input| == s[0] && 0 <= k < |s| && IsWidest(s, width)
    ensures Buffer(s, w, act, exp, input, width, k)[..s[k]] == Activations(s, w, act, exp, input, k)
    decreases k
  {
    if k > 0 {
      BufferHoldsActivations(s, w, act, exp, input, width, k - 1);
    }
  }

  /** After the last layer the buffer starts with the network's output. */
  lemma OutputInBuffer(s: seq<int>, w: seq<real>, act: Activation, exp: Exp, input: seq<real>, width: int, last: int, out: seq<real>)
    requires Shaped(s, w) && |input| == s[0] && IsWidest(s, width) && last == |s| - 1
    requires out == Buffer(s, w, act, exp, input, width, last)
    ensures out[..s[last]] == Output(s, w, act, exp, input)
  {
    BufferHoldsActivations(s, w, act, exp, input, width, last);
  }

  /** A two-unit input layer feeding one LINEAR output unit: the output is the sum of the two
      interlayer weights and the output unit's bias, which sits at address 4 because the
      input layer's two bias entries come first. */
  lemma SingleLayerExample(w: seq<real>, exp: Exp)
    requires |w| == 5
    ensures Shaped([2, 1], w)
    ensures Output([2, 1], w, Linear, exp, [1.0, 1.0]) == [w[0] + w[1] + w[4]]
  {
    var s := [2, 1];
    assert ParameterCount(s) == 5 by {
      assert Products(s, 1) == 2;
      assert Widths(s, 2) == 3;
    }
    assert WeightIndex(s, 0, 0, 0) == 0;
    assert WeightIndex(s, 0, 1, 0) == 1;
    assert BiasIndex(s, 1, 0) == 4 by {
      assert Products(s, 1) == 2;
      assert Widths(s, 1) == 2;
    }
    var d := Dot(s, w, [1.0, 1.0], 1, 0, 2);
    assert d == w[0] + w[1];
  }
}
