/**
  The flat parameter layout of a feed-forward network.

  One vector holds, in this order,
    1. the interlayer weight blocks (0,1), (1,2), ..., (L-2,L-1); block k is row-major
       with `s[k]` rows (source units) of `s[k+1]` entries (destination units);
    2. one bias block per layer 0, 1, ..., L-1, the unused input layer included;
  where `s` is the sequence of layer sizes and L = |s|. Nothing stores offsets: every
  address is recomputed from `s`.
 */
module Layout {

  /** A sequence of layer sizes: at least the input layer, and no negative width. */
  predicate IsTopology(s: seq<int>) {
    |s| >= 1 && forall k :: 0 <= k < |s| ==> s[k] >= 0
  }

  /** Entries of the interlayer blocks below layer n: sum of s[k] * s[k+1] for k < n. */
  function Products(s: seq<int>, n: int): int
    requires 0 <= n < |s|
    decreases n
  {
    if n == 0 then 0 else Products(s, n - 1) + s[n - 1] * s[n]
  }

  /** Total width of the layers below n: sum of s[k] for k < n. */
  function Widths(s: seq<int>, n: int): int
    requires 0 <= n <= |s|
    decreases n
  {
    if n == 0 then 0 else Widths(s, n - 1) + s[n - 1]
  }

  /** Length of the interlayer super-block, which is where the bias super-block starts. */
  function Interlayer(s: seq<int>): int
    requires |s| >= 1
  {
    Products(s, |s| - 1)
  }

  /** Length of the whole parameter vector: every weight block and every bias block. */
  function ParameterCount(s: seq<int>): int
    requires |s| >= 1
  {
    Interlayer(s) + Widths(s, |s|)
  }

  /** Address of the weight from unit `start` of layer `layer` to unit `end` of layer `layer + 1`. */
  function WeightIndex(s: seq<int>, layer: int, start: int, end: int): int
    requires 0 <= layer < |s| - 1
  {
    Products(s, layer) + start * s[layer + 1] + end
  }

  /** Address of the bias of unit `unit` of layer `layer`. */
  function BiasIndex(s: seq<int>, layer: int, unit: int): int
    requires 0 <= layer < |s|
  {
    Interlayer(s) + Widths(s, layer) + unit
  }

  /** `b` is the widest layer size, or 0 when there is no layer; the scratch buffer of a forward pass has this length. */
  predicate IsWidest(s: seq<int>, b: int) {
    b >= 0 && (forall k :: 0 <= k < |s| ==> s[k] <= b) && (b == 0 || b in s)
  }

  /** One position of the parameter vector, named by its coordinates. */
  datatype Slot = Weight(layer: int, start: int, end: int) | Bias(layer: int, unit: int)

  /** The coordinates name a connection or a unit that exists in the topology. */
  predicate InRange(s: seq<int>, x: Slot) {
    match x
    case Weight(l, t, a) => 0 <= l < |s| - 1 && 0 <= t < s[l] && 0 <= a < s[l + 1]
    case Bias(l, u) => 0 <= l < |s| && 0 <= u < s[l]
  }

  function SlotIndex(s: seq<int>, x: Slot): int
    requires InRange(s, x)
  {
    match x
    case Weight(l, t, a) => WeightIndex(s, l, t, a)
    case Bias(l, u) => BiasIndex(s, l, u)
  }

  // ---------------------------------------------------------------------------
  // Arithmetic of the row-major block

  /** Row `t`, column `a` of an m-by-n block lies inside the block. */
  lemma RowMajorBound(t: int, a: int, m: int, n: int)
    requires 0 <= t < m && 0 <= a < n
    ensures 0 <= t * n + a < m * n
  {
    MulMonotone(0, t, n);
    MulMonotone(t + 1, m, n);
  }

  /** Scaling by a non-negative factor keeps the order. */
  lemma MulMonotone(x: int, y: int, n: int)
    requires x <= y && 0 <= n
    ensures x * n <= y * n
  {
    assert y * n - x * n == (y - x) * n;
  }

  /** Two positions of a row-major block with rows of length n coincide only when row and column do. */
  lemma RowMajorUnique(t1: int, a1: int, t2: int, a2: int, n: int)
    requires 0 <= a1 < n && 0 <= a2 < n && 0 <= t1 && 0 <= t2
    requires t1 * n + a1 == t2 * n + a2
    ensures t1 == t2 && a1 == a2
  {
    if t1 < t2 {
      MulMonotone(t1 + 1, t2, n);
      assert false;
    } else if t2 < t1 {
      MulMonotone(t2 + 1, t1, n);
      assert false;
    }
  }

  /** An offset inside an m-by-n block has a row below m. */
  lemma RowOfOffset(off: int, m: int, n: int)
    requires 0 <= m && 0 <= off < m * n
    ensures n > 0 && 0 <= off / n < m && 0 <= off % n < n
    ensures (off / n) * n + off % n == off
  {
    if n <= 0 {
      MulMonotone(n, 0, m);
      assert false;
    }
    if off / n >= m {
      MulMonotone(m, off / n, n);
      assert false;
    }
  }

  // ---------------------------------------------------------------------------
  // Prefix sums grow

  lemma {:induction false} ProductsGrow(s: seq<int>, m: int, n: int)
    requires IsTopology(s) && 0 <= m <= n < |s|
    ensures 0 <= Products(s, m) <= Products(s, n)
    decreases n, m
  {
    if m < n {
      ProductsGrow(s, m, n - 1);
      assert s[n - 1] * s[n] >= 0;
    } else if m > 0 {
      ProductsGrow(s, 0, m);
    }
  }

  lemma {:induction false} WidthsGrow(s: seq<int>, m: int, n: int)
    requires IsTopology(s) && 0 <= m <= n <= |s|
    ensures 0 <= Widths(s, m) <= Widths(s, n)
    decreases n, m
  {
    if m < n {
      WidthsGrow(s, m, n - 1);
    } else if m > 0 {
      WidthsGrow(s, 0, m);
    }
  }

  // ---------------------------------------------------------------------------
  // Bounds, injectivity, coverage

  /** An interlayer address stays inside its own block, hence inside the interlayer super-block. */
  lemma WeightIndexInRange(s: seq<int>, layer: int, start: int, end: int)
    requires IsTopology(s) && InRange(s, Weight(layer, start, end))
    ensures Products(s, layer) <= WeightIndex(s, layer, start, end) < Products(s, layer + 1)
    ensures 0 <= WeightIndex(s, layer, start, end) < Interlayer(s) <= ParameterCount(s)
  {
    RowMajorBound(start, end, s[layer], s[layer + 1]);
    ProductsGrow(s, 0, layer);
    ProductsGrow(s, layer + 1, |s| - 1);
    WidthsGrow(s, 0, |s|);
  }

  /** A bias address stays inside its layer's block, hence inside the bias super-block. */
  lemma BiasIndexInRange(s: seq<int>, layer: int, unit: int)
    requires IsTopology(s) && InRange(s, Bias(layer, unit))
    ensures Interlayer(s) + Widths(s, layer) <= BiasIndex(s, layer, unit) < Interlayer(s) + Widths(s, layer + 1)
    ensures 0 <= Interlayer(s) <= BiasIndex(s, layer, unit) < ParameterCount(s)
  {
    ProductsGrow(s, 0, |s| - 1);
    WidthsGrow(s, 0, layer);
    WidthsGrow(s, layer + 1, |s|);
  }

  /** Every in-range slot has an address inside the parameter vector. */
  lemma SlotIndexInRange(s: seq<int>, x: Slot)
    requires IsTopology(s) && InRange(s, x)
    ensures 0 <= SlotIndex(s, x) < ParameterCount(s)
    ensures x.Weight? <==> SlotIndex(s, x) < Interlayer(s)
  {
    match x
    case Weight(l, t, a) => WeightIndexInRange(s, l, t, a);
    case Bias(l, u) => BiasIndexInRange(s, l, u);
  }

  /** No weight shares its address with a bias: the two super-blocks are disjoint. */
  lemma WeightBiasDisjoint(s: seq<int>, layer: int, start: int, end: int, bLayer: int, unit: int)
    requires IsTopology(s) && InRange(s, Weight(layer, start, end)) && InRange(s, Bias(bLayer, unit))
    ensures WeightIndex(s, layer, start, end) < BiasIndex(s, bLayer, unit)
  {
    WeightIndexInRange(s, layer, start, end);
    BiasIndexInRange(s, bLayer, unit);
  }

  /** Distinct interlayer coordinates have distinct addresses. */
  lemma WeightIndexInjective(s: seq<int>, l1: int, t1: int, a1: int, l2: int, t2: int, a2: int)
    requires IsTopology(s) && InRange(s, Weight(l1, t1, a1)) && InRange(s, Weight(l2, t2, a2))
    requires WeightIndex(s, l1, t1, a1) == WeightIndex(s, l2, t2, a2)
    ensures l1 == l2 && t1 == t2 && a1 == a2
  {
    WeightIndexInRange(s, l1, t1, a1);
    WeightIndexInRange(s, l2, t2, a2);
    if l1 < l2 {
      ProductsGrow(s, l1 + 1, l2);
      assert false;
    } else if l2 < l1 {
      ProductsGrow(s, l2 + 1, l1);
      assert false;
    }
    RowMajorUnique(t1, a1, t2, a2, s[l1 + 1]);
  }

  /** Distinct bias coordinates have distinct addresses. */
  lemma BiasIndexInjective(s: seq<int>, l1: int, u1: int, l2: int, u2: int)
    requires IsTopology(s) && InRange(s, Bias(l1, u1)) && InRange(s, Bias(l2, u2))
    requires BiasIndex(s, l1, u1) == BiasIndex(s, l2, u2)
    ensures l1 == l2 && u1 == u2
  {
    BiasIndexInRange(s, l1, u1);
    BiasIndexInRange(s, l2, u2);
    if l1 < l2 {
      WidthsGrow(s, l1 + 1, l2);
      assert false;
    } else if l2 < l1 {
      WidthsGrow(s, l2 + 1, l1);
      assert false;
    }
  }

  /** Addressing is injective over all slots. */
  lemma SlotIndexInjective(s: seq<int>, x: Slot, y: Slot)
    requires IsTopology(s) && InRange(s, x) && InRange(s, y)
    requires SlotIndex(s, x) == SlotIndex(s, y)
    ensures x == y
  {
    match x
    case Weight(l1, t1, a1) => {
      match y
      case Weight(l2, t2, a2) => WeightIndexInjective(s, l1, t1, a1, l2, t2, a2);
      case Bias(l2, u2) => WeightBiasDisjoint(s, l1, t1, a1, l2, u2);
    }
    case Bias(l1, u1) => {
      match y
      case Weight(l2, t2, a2) => WeightBiasDisjoint(s, l2, t2, a2, l1, u1);
      case Bias(l2, u2) => BiasIndexInjective(s, l1, u1, l2, u2);
    }
  }

  /** The slot of the interlayer address `i`, searching the blocks from layer `l` upwards. */
  function LocateWeight(s: seq<int>, i: int, l: int): (x: Slot)
    requires IsTopology(s) && 0 <= l < |s| - 1
    requires Products(s, l) <= i < Interlayer(s)
    ensures x.Weight? && InRange(s, x) && SlotIndex(s, x) == i
    decreases |s| - l
  {
    if i < Products(s, l + 1) then
      var off := i - Products(s, l);
      RowOfOffset(off, s[l], s[l + 1]);
      Weight(l, off / s[l + 1], off % s[l + 1])
    else
      LocateWeight(s, i, l + 1)
  }

  /** The slot of the bias-relative address `j`, searching the bias blocks from layer `l` upwards. */
  function LocateBias(s: seq<int>, j: int, l: int): (x: Slot)
    requires IsTopology(s) && 0 <= l < |s|
    requires Widths(s, l) <= j < Widths(s, |s|)
    ensures x.Bias? && InRange(s, x) && SlotIndex(s, x) == Interlayer(s) + j
    decreases |s| - l
  {
    if j < Widths(s, l + 1) then
      Bias(l, j - Widths(s, l))
    else
      LocateBias(s, j, l + 1)
  }

  /** Decoding an address: every position of the parameter vector belongs to exactly one slot. */
  function Locate(s: seq<int>, i: int): (x: Slot)
    requires IsTopology(s) && 0 <= i < ParameterCount(s)
    ensures InRange(s, x) && SlotIndex(s, x) == i
  {
    if i < Interlayer(s) then LocateWeight(s, i, 0)
    else LocateBias(s, i - Interlayer(s), 0)
  }

  /** Locate undoes SlotIndex, so with Locate's own contract SlotIndex is a bijection
      from the in-range slots onto [0, ParameterCount(s)). */
  lemma LocateSlotIndex(s: seq<int>, x: Slot)
    requires IsTopology(s) && InRange(s, x)
    ensures 0 <= SlotIndex(s, x) < ParameterCount(s)
    ensures Locate(s, SlotIndex(s, x)) == x
  {
    SlotIndexInRange(s, x);
    var y := Locate(s, SlotIndex(s, x));
    SlotIndexInjective(s, x, y);
  }
}
