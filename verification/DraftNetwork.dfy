/** What the draft model computes when rounding is exact: a residual network of attention and gated
    feed-forward parts, each between two convolutions and behind a normalisation. */
module DraftNetwork {
  import opened Options
  import opened Tensors
  import opened ScaledTransport
  import GroupedConv

  ghost predicate Exact(ops: Ops) {
    forall x: real :: ops.round(x) == x
  }

  /** The gated unit: the first half of a row, times its own sigmoid, times the second half. */
  function Gated(ops: Ops, y: Vec): (r: Vec)
    ensures |r| == |y| / 2
    ensures forall i | 0 <= i < |r| :: r[i] == y[i] * ops.sigmoid(y[i]) * y[|y| / 2 + i]
  {
    seq(|y| / 2, i requires 0 <= i < |y| / 2 => y[i] * ops.sigmoid(y[i]) * y[|y| / 2 + i])
  }

  function AddRows(x: Tensor, y: Tensor, width: nat): (r: Tensor)
    requires Shaped(x, |x|, width) && Shaped(y, |x|, width)
    ensures Shaped(r, |x|, width)
    ensures forall t, i | 0 <= t < |x| && 0 <= i < width :: r[t][i] == x[t][i] + y[t][i]
  {
    seq(|x|, t requires 0 <= t < |x| => seq(width, i requires 0 <= i < width => x[t][i] + y[t][i]))
  }

  function FeedForward(ops: Ops, l: Layer, x: Tensor, width: nat): (r: Tensor)
    requires ValidMlp(l, width) && Shaped(x, |x|, width)
    ensures Shaped(r, |x|, width)
  {
    seq(|x|, t requires 0 <= t < |x| => Linear(l.down, Gated(ops, Linear(l.gateUp, x[t]))))
  }

  /** One layer: attention, then feed-forward, each added to the stream. */
  function Block(ops: Ops, l: Layer, x: Tensor, width: nat, heads: nat): (r: Tensor)
    requires Valid(l, width, heads) && Shaped(x, |x|, width)
    ensures Shaped(r, |x|, width)
  {
    var a := NormRows(ops, l.inputNorm, x);
    var attended := Project(l.outputProjection, l.attend(Prepare(l.attentionConv, a, width)), heads);
    var y := AddRows(x, Finish(l.attentionConv, attended, a, width), width);
    var b := NormRows(ops, l.postNorm, y);
    var fed := FeedForward(ops, l, Prepare(l.mlpConv, b, width), width);
    AddRows(y, Finish(l.mlpConv, fed, b, width), width)
  }

  function Network(ops: Ops, layers: seq<Layer>, x: Tensor, width: nat, heads: nat): (r: Tensor)
    requires (forall l | l in layers :: Valid(l, width, heads)) && Shaped(x, |x|, width)
    ensures Shaped(r, |x|, width)
    decreases |layers|
  {
    if |layers| == 0 then x
    else Block(ops, layers[|layers| - 1], Network(ops, layers[..|layers| - 1], x, width, heads), width, heads)
  }

  // ------------------------------------------------------------------------------------------
  // The pieces
  // ------------------------------------------------------------------------------------------

  /** Only the first half of a row passes through the sigmoid. */
  lemma ExactSwiGlu(ops: Ops, y: Vec)
    requires Exact(ops)
    ensures SwiGlu(ops, y) == Gated(ops, y)
  {
    forall i | 0 <= i < |y| / 2 ensures SwiGlu(ops, y)[i] == Gated(ops, y)[i] { }
  }

  lemma ExactAdd(ops: Ops, x: Tensor, residual: Tensor, width: nat)
    requires Exact(ops) && Shaped(x, |x|, width) && Shaped(residual, |x|, width)
    ensures AddResiduals(Plain, ops, x, residual, width) == AddRows(residual, x, width)
  {
    var a, b := AddResiduals(Plain, ops, x, residual, width), AddRows(residual, x, width);
    forall t, i | 0 <= t < |x| && 0 <= i < width ensures a[t][i] == b[t][i] { }
    GroupedConv.SameRows(a, b, |x|, width);
  }

  lemma ExactMlp(ops: Ops, l: Layer, x: Tensor, width: nat)
    requires Exact(ops) && ValidMlp(l, width) && Shaped(x, |x|, width)
    ensures Mlp(Plain, ops, l, x, width) == FeedForward(ops, l, x, width)
  {
    forall t | 0 <= t < |x| ensures Mlp(Plain, ops, l, x, width)[t] == FeedForward(ops, l, x, width)[t] {
      ExactSwiGlu(ops, Linear(l.gateUp, x[t]));
    }
  }

  lemma {:induction false} SquareSumIsDot(v: Vec)
    ensures SquareSum(v) == Dot(v, v)
    decreases |v|
  {
    if |v| > 0 { SquareSumIsDot(v[1..]); }
  }

  lemma {:induction false} SquareSumScales(f: real, v: Vec)
    ensures SquareSum(Scale(f, v)) == f * f * SquareSum(v)
    decreases |v|
  {
    if |v| > 0 {
      ScaleTail(f, v);
      SquareSumScales(f, v[1..]);
      assert (f * v[0]) * (f * v[0]) == f * f * (v[0] * v[0]);
    }
  }

  /** rsqrt is the inverse of the square root. */
  ghost predicate InvertsRoots(ops: Ops) {
    forall x: real | x > 0.0 :: Inverse(ops.rsqrt(x), x)
  }

  predicate Inverse(root: real, x: real) { root * root * x == 1.0 }

  /** f is the factor that brings a row's mean square, with eps added, to one. */
  ghost predicate IsFactor(f: real, v: Vec, eps: real) {
    SquareSum(Scale(f, v)) + (f * f) * (eps * (|v| as real)) == |v| as real
  }

  /** A normalised row is the row times that factor, weighted entry by entry. */
  ghost predicate Normalised(r: Vec, f: real, n: Norm, v: Vec) {
    |r| == |v| == |n.weight| && forall i | 0 <= i < |v| :: r[i] == v[i] * f * n.weight[i]
  }

  lemma {:induction false} NormalisesMeanSquare(ops: Ops, n: Norm, v: Vec)
    requires Exact(ops) && InvertsRoots(ops) && |n.weight| == |v| > 0 && n.eps > 0.0
    ensures exists f :: IsFactor(f, v, n.eps) && Normalised(NormRow(ops, n, v), f, n, v)
  {
    var f := NormFactor(ops, n, v);
    FactorFits(ops, n, v);
    assert Normalised(NormRow(ops, n, v), f, n, v);
  }

  function NormFactor(ops: Ops, n: Norm, v: Vec): real
    requires |v| > 0
  {
    ops.rsqrt(SquareSum(v) / (|v| as real) + n.eps)
  }

  lemma {:induction false} FactorFits(ops: Ops, n: Norm, v: Vec)
    requires InvertsRoots(ops) && |v| > 0 && n.eps > 0.0
    ensures IsFactor(NormFactor(ops, n, v), v, n.eps)
  {
    var f, size := NormFactor(ops, n, v), |v| as real;
    var mean := SquareSum(v) / size;
    SquaresNotNegative(v);
    assert Inverse(f, mean + n.eps);
    SquareSumScales(f, v);
    MeanTimesSize(f * f, SquareSum(v), size, mean, n.eps);
  }

  lemma MeanTimesSize(ff: real, total: real, size: real, mean: real, eps: real)
    requires size > 0.0 && mean == total / size && ff * (mean + eps) == 1.0
    ensures ff * total + ff * (eps * size) == size
  {
    assert total == mean * size;
    assert ff * (mean * size) + ff * (eps * size) == ff * (mean + eps) * size;
  }

  lemma {:induction false} SquaresNotNegative(v: Vec)
    ensures SquareSum(v) >= 0.0
    decreases |v|
  {
    if |v| > 0 { SquaresNotNegative(v[1..]); }
  }

  /** What a layer's second convolution mixes: rows of its block, with corrections computed from what the
      first convolution saw in the receiving row. */
  lemma FinishMixes(k: ConvLayer, x: Tensor, source: Tensor, width: nat, t: nat, c: nat, g: nat)
    requires ValidConv(k, width) && Shaped(x, |source|, width) && t < |x| && c < width
    requires g < k.second.groups && g * k.second.groupSize <= c < (g + 1) * k.second.groupSize
    ensures var before := t % k.second.blockSize;
            && 0 <= before <= t
            && Finish(k, x, source, width)[t][c]
               == GroupedConv.Received(k.second, x, Deltas(k.secondDelta, source), t, c, g,
                                       if before + 1 < k.second.taps then before + 1 else k.second.taps)
  {
    GroupedConv.OutputEntry(k.second, x, Deltas(k.secondDelta, source), t, c, g);
  }

  /** And its first, with corrections computed from the rows themselves. */
  lemma PrepareMixes(k: ConvLayer, x: Tensor, width: nat, t: nat, c: nat, g: nat)
    requires ValidConv(k, width) && Shaped(x, |x|, width) && t < |x| && c < width
    requires g < k.first.groups && g * k.first.groupSize <= c < (g + 1) * k.first.groupSize
    ensures var before := t % k.first.blockSize;
            && 0 <= before <= t
            && Prepare(k, x, width)[t][c]
               == GroupedConv.Received(k.first, x, Deltas(k.firstDelta, x), t, c, g,
                                       if before + 1 < k.first.taps then before + 1 else k.first.taps)
  {
    GroupedConv.OutputEntry(k.first, x, Deltas(k.firstDelta, x), t, c, g);
  }

  // ------------------------------------------------------------------------------------------
  // The model
  // ------------------------------------------------------------------------------------------

  /** The residual stream at the end of a layer, once the pending part is added. */
  function Total(ops: Ops, s: Stream, width: nat): Tensor
    requires Fits(s, width)
  {
    if s.residual.None? then s.hidden else AddResiduals(Plain, ops, s.hidden, s.residual.value, width)
  }

  lemma LayerIsBlock(ops: Ops, l: Layer, s: Stream, width: nat, heads: nat)
    requires Exact(ops) && Valid(l, width, heads) && Fits(s, width)
    ensures Shaped(Total(ops, s, width), |s.hidden|, width)
    ensures Total(ops, Forward(Plain, ops, l, s, width, heads), width)
         == Block(ops, l, Total(ops, s, width), width, heads)
  {
    var x := Total(ops, s, width);
    var a := NormRows(ops, l.inputNorm, x);
    var attended := AttentionPart(Plain, l, a, width, heads);
    ExactAdd(ops, attended, x, width);
    var y := AddRows(x, attended, width);
    var b := NormRows(ops, l.postNorm, y);
    ExactMlp(ops, l, Prepare(l.mlpConv, b, width), width);
    ExactAdd(ops, MlpPart(Plain, ops, l, b, width), y, width);
  }

  lemma {:induction false} RunIsNetwork(ops: Ops, layers: seq<Layer>, embeddings: Tensor, width: nat, heads: nat)
    requires Exact(ops) && (forall l | l in layers :: Valid(l, width, heads)) && Shaped(embeddings, |embeddings|, width)
    ensures Total(ops, Run(Plain, ops, layers, Stream(embeddings, None), width, heads), width)
         == Network(ops, layers, embeddings, width, heads)
    decreases |layers|
  {
    if |layers| > 0 {
      var front := layers[..|layers| - 1];
      RunIsNetwork(ops, front, embeddings, width, heads);
      LayerIsBlock(ops, layers[|layers| - 1], Run(Plain, ops, front, Stream(embeddings, None), width, heads), width,
                   heads);
    }
  }

  /** With exact rounding the scaled model, with its residual additions put off into the next
      normalisation, computes the residual network. */
  lemma ScaledModelIsNetwork(ops: Ops, layers: seq<Layer>, norm: Norm, embeddings: Tensor, heads: nat)
    requires Exact(ops) && |layers| > 0 && (forall l | l in layers :: Valid(l, |norm.weight|, heads))
    requires Shaped(embeddings, |embeddings|, |norm.weight|)
    ensures ModelOutput(Transport, ops, layers, norm, embeddings, heads)
         == NormRows(ops, norm, Network(ops, layers, embeddings, |norm.weight|, heads))
  {
    OutputsAgree(ops, layers, norm, embeddings, heads);
    RunIsNetwork(ops, layers, embeddings, |norm.weight|, heads);
  }
}
