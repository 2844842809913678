/** One projection for the keys and values of all draft layers at once, and the view that takes its
    result apart again. */
module FusedProjection {
  import opened Options
  import opened Sums
  import opened Arithmetic
  import opened Tensors

  /** A layer's query, key and value rows, in this order, with a bias for each or none at all. */
  datatype Attention = Attention(weight: Tensor, bias: Option<Vec>)

  /** The sizes all layers share. */
  datatype Sizes = Sizes(query: nat, heads: nat, headDim: nat, kv: nat, width: nat)

  ghost predicate Valid(z: Sizes) { z.kv == z.heads * z.headDim }

  ghost predicate Fits(a: Attention, z: Sizes, hasBias: bool) {
    && Shaped(a.weight, z.query + 2 * z.kv, z.width)
    && (hasBias ==> a.bias.Some? && |a.bias.value| == z.query + 2 * z.kv)
    && (!hasBias ==> a.bias.None?)
  }

  ghost predicate AllFit(layers: seq<Attention>, z: Sizes, hasBias: bool) {
    Valid(z) && forall i | 0 <= i < |layers| :: Fits(layers[i], z, hasBias)
  }

  /** Entry j of a layer's key (side 0) or value (side 1) projection. */
  function KvEntry(a: Attention, z: Sizes, side: nat, j: nat, x: Vec): real
    requires Fits(a, z, a.bias.Some?) && side < 2 && j < z.kv && |x| == z.width
  {
    KvIndex(z, side, j);
    var i := z.query + side * z.kv + j;
    Dot(a.weight[i], x) + (if a.bias.Some? then a.bias.value[i] else 0.0)
  }

  lemma KvIndex(z: Sizes, side: nat, j: nat)
    requires side < 2 && j < z.kv
    ensures 0 <= side * z.kv + j < 2 * z.kv
  {
  }

  // ------------------------------------------------------------------------------------------
  // Concatenation of equal parts
  // ------------------------------------------------------------------------------------------

  function Concat<T>(parts: seq<seq<T>>): seq<T> {
    if |parts| == 0 then [] else parts[0] + Concat(parts[1..])
  }

  lemma {:induction false} ConcatLength<T>(parts: seq<seq<T>>, n: nat)
    requires forall i | 0 <= i < |parts| :: |parts[i]| == n
    ensures |Concat(parts)| == |parts| * n
    decreases |parts|
  {
    if |parts| > 0 {
      ConcatLength(parts[1..], n);
      assert |parts| * n == |parts[1..]| * n + n;
    }
  }

  /** Part l, entry j. */
  lemma {:induction false} ConcatAt<T>(parts: seq<seq<T>>, n: nat, l: nat, j: nat)
    requires (forall i | 0 <= i < |parts| :: |parts[i]| == n) && l < |parts| && j < n
    ensures 0 <= l * n + j < |Concat(parts)| && Concat(parts)[l * n + j] == parts[l][j]
    decreases |parts|
  {
    if l == 0 {
      assert l * n == 0;
    } else {
      ConcatAt(parts[1..], n, l - 1, j);
      assert l * n == (l - 1) * n + n;
      assert Concat(parts)[l * n + j] == Concat(parts[1..])[(l - 1) * n + j];
    }
  }

  /** Row-major layer rows and repeated positions line up: each flattened key row is rotated with its
      own token's position. */
  lemma PositionsLineUp<T>(rows: seq<seq<T>>, positions: seq<int>, l: nat, t: nat)
    requires (forall i | 0 <= i < |rows| :: |rows[i]| == |positions|) && l < |rows| && t < |positions|
    ensures var i := l * |positions| + t;
            && 0 <= i < |Concat(rows)| && i < |Concat(Repeat(positions, |rows|))|
            && Concat(rows)[i] == rows[l][t] && Concat(Repeat(positions, |rows|))[i] == positions[t]
  {
    ConcatAt(rows, |positions|, l, t);
    ConcatAt(Repeat(positions, |rows|), |positions|, l, t);
  }

  // ------------------------------------------------------------------------------------------
  // The fused projection
  // ------------------------------------------------------------------------------------------

  /** Where the view [layer, side, head, entry] finds its element in a projected row. */
  function Index(z: Sizes, l: nat, side: nat, h: nat, d: nat): nat {
    ((l * 2 + side) * z.heads + h) * z.headDim + d
  }

  lemma HeadEntry(z: Sizes, h: nat, d: nat)
    requires Valid(z) && h < z.heads && d < z.headDim
    ensures 0 <= h * z.headDim + d < z.kv
  {
    MulMonotone(z.headDim, h + 1, z.heads);
    assert (h + 1) * z.headDim == h * z.headDim + z.headDim;
  }

  lemma IndexSplits(z: Sizes, l: nat, side: nat, h: nat, d: nat)
    requires Valid(z)
    ensures Index(z, l, side, h, d) == l * (2 * z.kv) + (side * z.kv + (h * z.headDim + d))
  {
  }

  function KvRows<T>(all: seq<T>, query: nat): seq<T>
    requires query <= |all|
  {
    all[query..]
  }

  function WeightParts(layers: seq<Attention>, query: nat): (r: seq<Tensor>)
    requires forall i | 0 <= i < |layers| :: query <= |layers[i].weight|
    ensures |r| == |layers| && forall i | 0 <= i < |layers| :: r[i] == KvRows(layers[i].weight, query)
  {
    seq(|layers|, i requires 0 <= i < |layers| => KvRows(layers[i].weight, query))
  }

  function BiasParts(layers: seq<Attention>, query: nat): (r: seq<Vec>)
    requires forall i | 0 <= i < |layers| :: layers[i].bias.Some? && query <= |layers[i].bias.value|
    ensures |r| == |layers| && forall i | 0 <= i < |layers| :: r[i] == KvRows(layers[i].bias.value, query)
  {
    seq(|layers|, i requires 0 <= i < |layers| => KvRows(layers[i].bias.value, query))
  }

  /** Element `index` of a projected row. */
  function FusedEntry(weight: Tensor, bias: Option<Vec>, index: nat, x: Vec): real
    requires index < |weight| && |weight[index]| == |x| && (bias.Some? ==> index < |bias.value|)
  {
    Dot(weight[index], x) + (if bias.Some? then bias.value[index] else 0.0)
  }

  /** The buffers hold the layers' key and value rows, layer after layer. */
  ghost predicate BuiltFrom(weight: Tensor, bias: Option<Vec>, layers: seq<Attention>, z: Sizes, hasBias: bool)
    requires AllFit(layers, z, hasBias)
  {
    && weight == Concat(WeightParts(layers, z.query))
    && bias == if hasBias then Some(Concat(BiasParts(layers, z.query))) else None
  }

  /** The fused buffers. */
  class ContextKv {
    const z: Sizes
    const layers: seq<Attention>
    var weight: Tensor
    var bias: Option<Vec>

    constructor (z: Sizes, layers: seq<Attention>)
      ensures this.z == z && this.layers == layers
    {
      this.z := z;
      this.layers := layers;
      weight := [];
      bias := None;
    }

    method BuildBuffers(hasBias: bool)
      requires AllFit(layers, z, hasBias)
      modifies this
      ensures BuiltFrom(weight, bias, layers, z, hasBias)
    {
      weight := Concat(WeightParts(layers, z.query));
      bias := if hasBias then Some(Concat(BiasParts(layers, z.query))) else None;
    }

    /** One side of the view, layer-major: the keys or the values of every layer and token. */
    method Project(hasBias: bool, side: nat, states: Tensor) returns (r: seq<seq<Tensor>>)
      requires AllFit(layers, z, hasBias) && BuiltFrom(weight, bias, layers, z, hasBias)
      requires side < 2 && Shaped(states, |states|, z.width)
      ensures |r| == |layers| && forall l | 0 <= l < |layers| :: |r[l]| == |states|
      ensures forall l, t | 0 <= l < |layers| && 0 <= t < |states| :: HasKv(r[l][t], layers[l], z, side, states[t])
    {
      var w, b, z := weight, bias, z;
      forall l, t | 0 <= l < |layers| && 0 <= t < |states| ensures ViewFits(w, b, z, l, side, states[t]) {
        ViewIsLayers(w, b, z, layers, hasBias, l, side, states[t]);
      }
      r := seq(|layers|, l requires 0 <= l < |layers| =>
             seq(|states|, t requires 0 <= t < |states| && ViewFits(w, b, z, l, side, states[t]) =>
               View(w, b, z, l, side, states[t])));
      forall l, t | 0 <= l < |layers| && 0 <= t < |states| ensures HasKv(r[l][t], layers[l], z, side, states[t]) {
        ViewIsLayers(w, b, z, layers, hasBias, l, side, states[t]);
      }
    }
  }

  predicate EntryFits(weight: Tensor, bias: Option<Vec>, index: nat, x: Vec) {
    index < |weight| && |weight[index]| == |x| && (bias.Some? ==> index < |bias.value|)
  }

  ghost predicate HasEntry(y: real, a: Attention, z: Sizes, side: nat, h: nat, d: nat, x: Vec)
    requires Fits(a, z, a.bias.Some?) && side < 2 && |x| == z.width
  {
    0 <= h * z.headDim + d < z.kv && y == KvEntry(a, z, side, h * z.headDim + d, x)
  }

  /** rows[h][d] is entry h * headDim + d of the layer's projection of x. */
  ghost predicate HasKv(rows: Tensor, a: Attention, z: Sizes, side: nat, x: Vec)
    requires Fits(a, z, a.bias.Some?) && side < 2 && |x| == z.width
  {
    && Shaped(rows, z.heads, z.headDim)
    && forall h, d | 0 <= h < z.heads && 0 <= d < z.headDim ::
         HasEntry(rows[h][d], a, z, side, h, d, x)
  }

  ghost predicate ViewFits(weight: Tensor, bias: Option<Vec>, z: Sizes, l: nat, side: nat, x: Vec) {
    forall h, d | 0 <= h < z.heads && 0 <= d < z.headDim :: EntryFits(weight, bias, Index(z, l, side, h, d), x)
  }

  /** One token's rows on one side of one layer, read out of the fused projection. */
  function View(weight: Tensor, bias: Option<Vec>, z: Sizes, l: nat, side: nat, x: Vec): (r: Tensor)
    requires ViewFits(weight, bias, z, l, side, x)
    ensures Shaped(r, z.heads, z.headDim)
    ensures forall h, d | 0 <= h < z.heads && 0 <= d < z.headDim ::
      r[h][d] == FusedEntry(weight, bias, Index(z, l, side, h, d), x)
  {
    seq(z.heads, h requires 0 <= h < z.heads =>
      seq(z.headDim, d requires 0 <= d < z.headDim => FusedEntry(weight, bias, Index(z, l, side, h, d), x)))
  }

  /** The element a view index reaches in the fused row is the layer's own projection. */
  lemma EntryIsLayers(weight: Tensor, bias: Option<Vec>, z: Sizes, layers: seq<Attention>, hasBias: bool,
                      l: nat, side: nat, h: nat, d: nat, x: Vec)
    requires AllFit(layers, z, hasBias) && BuiltFrom(weight, bias, layers, z, hasBias)
    requires l < |layers| && side < 2 && h < z.heads && d < z.headDim && |x| == z.width
    ensures EntryIs(weight, bias, layers[l], z, l, side, h, d, x)
  {
    HeadEntry(z, h, d);
    IndexSplits(z, l, side, h, d);
    PartIsLayers(weight, bias, z, layers, hasBias, l, side, h * z.headDim + d, x);
  }

  /** What the fused rows hold at a layer's key or value row. */
  lemma {:induction false} PartIsLayers(weight: Tensor, bias: Option<Vec>, z: Sizes, layers: seq<Attention>,
                                       hasBias: bool, l: nat, side: nat, j: nat, x: Vec)
    requires AllFit(layers, z, hasBias) && BuiltFrom(weight, bias, layers, z, hasBias)
    requires l < |layers| && side < 2 && j < z.kv && |x| == z.width
    ensures var index := l * (2 * z.kv) + (side * z.kv + j);
            && index >= 0 && EntryFits(weight, bias, index, x)
            && FusedEntry(weight, bias, index, x) == KvEntry(layers[l], z, side, j, x)
  {
    KvIndex(z, side, j);
    var i := side * z.kv + j;
    assert Fits(layers[l], z, hasBias);
    ConcatAt(WeightParts(layers, z.query), 2 * z.kv, l, i);
    if hasBias {
      ConcatAt(BiasParts(layers, z.query), 2 * z.kv, l, i);
    }
  }

  ghost predicate EntryIs(weight: Tensor, bias: Option<Vec>, a: Attention, z: Sizes, l: nat, side: nat, h: nat,
                          d: nat, x: Vec)
    requires Fits(a, z, a.bias.Some?) && side < 2 && |x| == z.width
  {
    && EntryFits(weight, bias, Index(z, l, side, h, d), x)
    && HasEntry(FusedEntry(weight, bias, Index(z, l, side, h, d), x), a, z, side, h, d, x)
  }

  lemma ViewIsLayers(weight: Tensor, bias: Option<Vec>, z: Sizes, layers: seq<Attention>, hasBias: bool,
                     l: nat, side: nat, x: Vec)
    requires AllFit(layers, z, hasBias) && BuiltFrom(weight, bias, layers, z, hasBias)
    requires l < |layers| && side < 2 && |x| == z.width
    ensures ViewFits(weight, bias, z, l, side, x)
    ensures HasKv(View(weight, bias, z, l, side, x), layers[l], z, side, x)
  {
    assert Fits(layers[l], z, hasBias);
    forall h, d | 0 <= h < z.heads && 0 <= d < z.headDim
      ensures EntryFits(weight, bias, Index(z, l, side, h, d), x)
      ensures EntryIs(weight, bias, layers[l], z, l, side, h, d, x)
    {
      EntryIsLayers(weight, bias, z, layers, hasBias, l, side, h, d, x);
    }
  }
}
