/** The draft model's layers with scaled half-precision transport, against the same layers without any
    scaling, in exact arithmetic and with the same rounding points. */
module ScaledTransport {
  import opened Options
  import opened Arithmetic
  import opened Tensors
  import GroupedConv

  const GATE_UP_INPUT_SCALE: real := 32.0
  const WIDE_OUTPUT_SCALE: real := 256.0
  const ROW_LIMIT: real := 32752.0

  /** Plain computes without scaling; Transport scales around every projection that may overflow. */
  datatype Variant = Plain | Transport

  /** Rounding to bfloat16 and the two transcendental functions; nothing is assumed of them. */
  datatype Ops = Ops(round: real -> real, sigmoid: real -> real, rsqrt: real -> real)

  datatype Norm = Norm(weight: Vec, eps: real)

  /** The two sides of a layer's convolution, with the rows' corrections as the kernel projection
      computes them. */
  datatype ConvLayer = ConvLayer(first: GroupedConv.Kernel, second: GroupedConv.Kernel,
                                 firstDelta: Vec -> Tensor, secondDelta: Vec -> Tensor)

  /** attend is the attention of the layer up to its output projection. */
  datatype Layer = Layer(inputNorm: Norm, attentionConv: ConvLayer, attend: Tensor -> Tensor, outputProjection: Tensor,
                         postNorm: Norm, mlpConv: ConvLayer, gateUp: Tensor, down: Tensor)

  // ------------------------------------------------------------------------------------------
  // The divisor of a row
  // ------------------------------------------------------------------------------------------

  function Abs(x: real): real { if x < 0.0 then -x else x }

  function MaxAbs(v: Vec): (m: real)
    ensures m >= 0.0
    ensures forall i | 0 <= i < |v| :: Abs(v[i]) <= m
    ensures |v| > 0 ==> exists i :: 0 <= i < |v| && Abs(v[i]) == m
  {
    if |v| == 0 then 0.0
    else
      var m := MaxAbs(v[1..]);
      assert forall i | 1 <= i < |v| :: v[i] == v[1..][i - 1];
      if Abs(v[0]) >= m then
        assert Abs(v[0]) == Abs(v[0]);
        Abs(v[0])
      else
        assert exists i :: 1 <= i < |v| && Abs(v[i]) == m by {
          var j :| 0 <= j < |v[1..]| && Abs(v[1..][j]) == m;
          assert Abs(v[j + 1]) == m;
        }
        m
  }

  /** The binary logarithm of x >= 1, rounded up: how often x is halved until it is at most one. */
  function CeilLog2(x: real): nat
    decreases if x <= 1.0 then 0 else x.Floor
  {
    if x <= 1.0 then 0 else 1 + CeilLog2(x / 2.0)
  }

  function Max(a: real, b: real): real { if a < b then b else a }

  function Exponent(v: Vec): nat { CeilLog2(Max(MaxAbs(v) / ROW_LIMIT, 1.0)) }

  function RowDivisor(v: Vec): (d: real)
    ensures d >= 1.0
  {
    Pow2(Exponent(v)) as real
  }

  lemma {:induction false} CeilLog2IsLeast(x: real, k: nat)
    ensures x <= Pow2(k) as real <==> CeilLog2(x) <= k
    decreases k
  {
    if x > 1.0 {
      if k > 0 { CeilLog2IsLeast(x / 2.0, k - 1); }
    }
  }

  /** A power of two is at least the divisor exactly when dividing by it brings every entry within
      the limit: the divisor is the least one. */
  lemma DivisorIsLeast(v: Vec, k: nat)
    ensures (forall i | 0 <= i < |v| :: Abs(v[i]) <= ROW_LIMIT * (Pow2(k) as real)) <==>
      RowDivisor(v) <= Pow2(k) as real
  {
    var x, m := Max(MaxAbs(v) / ROW_LIMIT, 1.0), MaxAbs(v);
    CeilLog2IsLeast(x, k);
    Pow2Ordered(Exponent(v), k);
    Pow2Ordered(k, Exponent(v));
    assert m / ROW_LIMIT <= Pow2(k) as real <==> m <= ROW_LIMIT * (Pow2(k) as real);
  }

  lemma {:induction false} Pow2Ordered(a: nat, b: nat)
    ensures a < b ==> Pow2(a) < Pow2(b)
    decreases b
  {
    if a < b { Pow2Ordered(a, b - 1); }
  }

  // ------------------------------------------------------------------------------------------
  // The feed-forward part
  // ------------------------------------------------------------------------------------------

  /** One entry of the gated activation, rounded after every step. */
  function Activated(ops: Ops, gate: real, up: real): real {
    ops.round(ops.round(gate * ops.sigmoid(gate)) * up)
  }

  /** The gated activation of a projected row at full range: its first half gates its second. */
  function SwiGlu(ops: Ops, y: Vec): (r: Vec)
    ensures |r| == |y| / 2
  {
    seq(|y| / 2, i requires 0 <= i < |y| / 2 => Activated(ops, ops.round(y[i]), ops.round(y[|y| / 2 + i])))
  }

  ghost predicate ValidMlp(l: Layer, width: nat) {
    && |l.gateUp| % 2 == 0
    && Shaped(l.gateUp, |l.gateUp|, width)
    && Shaped(l.down, width, |l.gateUp| / 2)
  }

  function MlpRow(v: Variant, ops: Ops, l: Layer, x: Vec): (r: Vec)
    requires ValidMlp(l, |x|)
    ensures |r| == |x|
  {
    match v
    case Plain =>
      Linear(l.down, SwiGlu(ops, Linear(l.gateUp, x)))
    case Transport =>
      var y := SwiGlu(ops, Scale(GATE_UP_INPUT_SCALE, Linear(l.gateUp, Scale(1.0 / GATE_UP_INPUT_SCALE, x))));
      Scale(RowDivisor(y) / WIDE_OUTPUT_SCALE, Linear(l.down, Scale(1.0 / RowDivisor(y), y)))
  }

  /** The scaled feed-forward row is the plain one, divided by 256. */
  lemma MlpRowTransports(ops: Ops, l: Layer, x: Vec)
    requires ValidMlp(l, |x|)
    ensures MlpRow(Transport, ops, l, x) == Scale(1.0 / WIDE_OUTPUT_SCALE, MlpRow(Plain, ops, l, x))
  {
    GateUpTransports(l.gateUp, x);
    DownTransports(l.down, SwiGlu(ops, Linear(l.gateUp, x)));
  }

  lemma GateUpTransports(gateUp: Tensor, x: Vec)
    requires Shaped(gateUp, |gateUp|, |x|)
    ensures Scale(GATE_UP_INPUT_SCALE, Linear(gateUp, Scale(1.0 / GATE_UP_INPUT_SCALE, x))) == Linear(gateUp, x)
  {
    LinearScale(gateUp, 1.0 / GATE_UP_INPUT_SCALE, x);
    ScaleBack(GATE_UP_INPUT_SCALE, Linear(gateUp, x));
  }

  /** Whatever the row's divisor, it cancels. */
  lemma DownTransports(down: Tensor, y: Vec)
    requires Shaped(down, |down|, |y|)
    ensures Scale(RowDivisor(y) / WIDE_OUTPUT_SCALE, Linear(down, Scale(1.0 / RowDivisor(y), y)))
         == Scale(1.0 / WIDE_OUTPUT_SCALE, Linear(down, y))
  {
    DivisorCancels(RowDivisor(y));
    ScaleAround(down, y, 1.0 / RowDivisor(y), RowDivisor(y) / WIDE_OUTPUT_SCALE, 1.0 / WIDE_OUTPUT_SCALE);
  }

  lemma DivisorCancels(d: real)
    requires d >= 1.0
    ensures (d / WIDE_OUTPUT_SCALE) * (1.0 / d) == 1.0 / WIDE_OUTPUT_SCALE
  {
  }

  /** What the output of a row is multiplied with, on the device path in place. */
  method ScaleOutput(output: array2<real>, rowScales: seq<real>, residualScale: real) returns (accepted: bool)
    modifies output
    ensures accepted <==> residualScale > 0.0 && |rowScales| == output.Length0
    ensures forall t, c | 0 <= t < output.Length0 && 0 <= c < output.Length1 ::
              output[t, c] == if accepted then old(output[t, c]) * (rowScales[t] / residualScale) else old(output[t, c])
  {
    if residualScale <= 0.0 || |rowScales| != output.Length0 {
      return false;
    }
    forall t, c | 0 <= t < output.Length0 && 0 <= c < output.Length1 {
      output[t, c] := output[t, c] * (rowScales[t] / residualScale);
    }
    return true;
  }

  // ------------------------------------------------------------------------------------------
  // Normalisation
  // ------------------------------------------------------------------------------------------

  function SquareSum(v: Vec): real {
    if |v| == 0 then 0.0 else v[0] * v[0] + SquareSum(v[1..])
  }

  function NormRow(ops: Ops, n: Norm, v: Vec): (r: Vec)
    requires |n.weight| == |v|
    ensures |r| == |v|
  {
    var factor := if |v| == 0 then 1.0 else ops.rsqrt(SquareSum(v) / (|v| as real) + n.eps);
    seq(|v|, i requires 0 <= i < |v| => ops.round(v[i] * factor * ops.round(n.weight[i])))
  }

  /** A row brought back to full range. */
  function FullRange(v: Variant, x: Vec): (r: Vec)
    ensures |r| == |x|
  {
    if v.Plain? then x else Scale(WIDE_OUTPUT_SCALE, x)
  }

  /** And added to the residual stream. */
  function AddResidual(v: Variant, ops: Ops, x: Vec, residual: Vec): (r: Vec)
    requires |x| == |residual|
    ensures |r| == |x|
  {
    seq(|x|, i requires 0 <= i < |x| => ops.round(FullRange(v, x)[i] + residual[i]))
  }

  function AddResiduals(v: Variant, ops: Ops, x: Tensor, residual: Tensor, width: nat): (r: Tensor)
    requires Shaped(x, |x|, width) && Shaped(residual, |x|, width)
    ensures Shaped(r, |x|, width)
  {
    seq(|x|, t requires 0 <= t < |x| => AddResidual(v, ops, x[t], residual[t]))
  }

  function NormRows(ops: Ops, n: Norm, x: Tensor): (r: Tensor)
    requires Shaped(x, |x|, |n.weight|)
    ensures Shaped(r, |x|, |n.weight|)
  {
    seq(|x|, t requires 0 <= t < |x| => NormRow(ops, n, x[t]))
  }

  lemma AddResidualTransports(ops: Ops, x: Vec, residual: Vec)
    requires |x| == |residual|
    ensures AddResidual(Transport, ops, Scale(1.0 / WIDE_OUTPUT_SCALE, x), residual)
         == AddResidual(Plain, ops, x, residual)
  {
    ScaleBack(WIDE_OUTPUT_SCALE, x);
    var a, b := FullRange(Transport, Scale(1.0 / WIDE_OUTPUT_SCALE, x)), FullRange(Plain, x);
    assert a == b;
  }

  lemma AddResidualsTransport(ops: Ops, x: Tensor, residual: Tensor, width: nat)
    requires Shaped(x, |x|, width) && Shaped(residual, |x|, width)
    ensures AddResiduals(Transport, ops, ScaleAll(1.0 / WIDE_OUTPUT_SCALE, x), residual, width)
         == AddResiduals(Plain, ops, x, residual, width)
  {
    forall t | 0 <= t < |x|
      ensures AddResidual(Transport, ops, ScaleAll(1.0 / WIDE_OUTPUT_SCALE, x)[t], residual[t])
           == AddResidual(Plain, ops, x[t], residual[t])
    {
      AddResidualTransports(ops, x[t], residual[t]);
    }
  }

  // ------------------------------------------------------------------------------------------
  // A layer
  // ------------------------------------------------------------------------------------------

  ghost predicate ValidConv(k: ConvLayer, width: nat) {
    && GroupedConv.Valid(k.first) && k.first.width == width
    && GroupedConv.Valid(k.second) && k.second.width == width
    && (forall x: Vec :: Shaped(k.firstDelta(x), k.first.taps, k.first.groups))
    && (forall x: Vec :: Shaped(k.secondDelta(x), k.second.taps, k.second.groups))
  }

  ghost predicate ValidAttention(l: Layer, width: nat, heads: nat) {
    && Shaped(l.outputProjection, width, heads)
    && (forall x: Tensor :: Shaped(l.attend(x), |x|, heads))
  }

  ghost predicate Valid(l: Layer, width: nat, heads: nat) {
    && |l.inputNorm.weight| == |l.postNorm.weight| == width
    && ValidConv(l.attentionConv, width) && ValidConv(l.mlpConv, width)
    && ValidAttention(l, width, heads) && ValidMlp(l, width)
  }

  /** The corrections of every row. */
  function Deltas(f: Vec -> Tensor, x: Tensor): (r: seq<Tensor>)
    ensures |r| == |x| && forall t | 0 <= t < |x| :: r[t] == f(x[t])
  {
    seq(|x|, t requires 0 <= t < |x| => f(x[t]))
  }

  function Prepare(k: ConvLayer, x: Tensor, width: nat): (r: Tensor)
    requires ValidConv(k, width) && Shaped(x, |x|, width)
    ensures Shaped(r, |x|, width)
  {
    GroupedConv.Conv(k.first, x, Deltas(k.firstDelta, x))
  }

  /** The second side, with the corrections computed from the rows the first side saw. */
  function Finish(k: ConvLayer, x: Tensor, source: Tensor, width: nat): (r: Tensor)
    requires ValidConv(k, width) && Shaped(x, |source|, width)
    ensures Shaped(r, |x|, width)
  {
    GroupedConv.Conv(k.second, x, Deltas(k.secondDelta, source))
  }

  function Project(w: Tensor, x: Tensor, width: nat): (r: Tensor)
    requires Shaped(x, |x|, width) && Shaped(w, |w|, width)
    ensures Shaped(r, |x|, |w|)
  {
    seq(|x|, t requires 0 <= t < |x| => Linear(w, x[t]))
  }

  function Attention(v: Variant, l: Layer, x: Tensor, width: nat, heads: nat): (r: Tensor)
    requires ValidAttention(l, width, heads)
    ensures Shaped(r, |x|, width)
  {
    var y := l.attend(x);
    Project(l.outputProjection, if v.Plain? then y else ScaleAll(1.0 / WIDE_OUTPUT_SCALE, y), heads)
  }

  function Mlp(v: Variant, ops: Ops, l: Layer, x: Tensor, width: nat): (r: Tensor)
    requires ValidMlp(l, width) && Shaped(x, |x|, width)
    ensures Shaped(r, |x|, width)
  {
    seq(|x|, t requires 0 <= t < |x| => MlpRow(v, ops, l, x[t]))
  }

  /** The stream between two layers. */
  datatype Stream = Stream(hidden: Tensor, residual: Option<Tensor>)

  ghost predicate Fits(s: Stream, width: nat) {
    && Shaped(s.hidden, |s.hidden|, width)
    && (s.residual.Some? ==> Shaped(s.residual.value, |s.hidden|, width))
  }

  function AttentionPart(v: Variant, l: Layer, x: Tensor, width: nat, heads: nat): (r: Tensor)
    requires Valid(l, width, heads) && Shaped(x, |x|, width)
    ensures Shaped(r, |x|, width)
  {
    Finish(l.attentionConv, Attention(v, l, Prepare(l.attentionConv, x, width), width, heads), x, width)
  }

  function MlpPart(v: Variant, ops: Ops, l: Layer, x: Tensor, width: nat): (r: Tensor)
    requires ValidConv(l.mlpConv, width) && ValidMlp(l, width) && Shaped(x, |x|, width)
    ensures Shaped(r, |x|, width)
  {
    Finish(l.mlpConv, Mlp(v, ops, l, Prepare(l.mlpConv, x, width), width), x, width)
  }

  function Forward(v: Variant, ops: Ops, l: Layer, s: Stream, width: nat, heads: nat): (r: Stream)
    requires Valid(l, width, heads) && Fits(s, width)
    ensures Fits(r, width) && r.residual.Some? && |r.hidden| == |s.hidden|
  {
    var residual := if s.residual.None? then s.hidden else AddResiduals(v, ops, s.hidden, s.residual.value, width);
    var attended := AttentionPart(v, l, NormRows(ops, l.inputNorm, residual), width, heads);
    var residual' := AddResiduals(v, ops, attended, residual, width);
    Stream(MlpPart(v, ops, l, NormRows(ops, l.postNorm, residual'), width), Some(residual'))
  }

  function Run(v: Variant, ops: Ops, layers: seq<Layer>, s: Stream, width: nat, heads: nat): (r: Stream)
    requires (forall l | l in layers :: Valid(l, width, heads)) && Fits(s, width)
    ensures Fits(r, width) && |r.hidden| == |s.hidden| && (|layers| > 0 ==> r.residual.Some?)
    decreases |layers|
  {
    if |layers| == 0 then s
    else Forward(v, ops, layers[|layers| - 1], Run(v, ops, layers[..|layers| - 1], s, width, heads), width, heads)
  }

  /** What the model returns after its last layer. */
  function ModelOutput(v: Variant, ops: Ops, layers: seq<Layer>, norm: Norm, embeddings: Tensor, heads: nat): Tensor
    requires |layers| > 0 && (forall l | l in layers :: Valid(l, |norm.weight|, heads))
    requires Shaped(embeddings, |embeddings|, |norm.weight|)
  {
    var s := Run(v, ops, layers, Stream(embeddings, None), |norm.weight|, heads);
    NormRows(ops, norm, AddResiduals(v, ops, s.hidden, s.residual.value, |norm.weight|))
  }

  // ------------------------------------------------------------------------------------------
  // The scalings cancel
  // ------------------------------------------------------------------------------------------

  lemma AttentionTransports(l: Layer, x: Tensor, width: nat, heads: nat)
    requires ValidAttention(l, width, heads)
    ensures Attention(Transport, l, x, width, heads)
         == ScaleAll(1.0 / WIDE_OUTPUT_SCALE, Attention(Plain, l, x, width, heads))
  {
    var y := l.attend(x);
    forall t | 0 <= t < |x|
      ensures Attention(Transport, l, x, width, heads)[t]
           == ScaleAll(1.0 / WIDE_OUTPUT_SCALE, Attention(Plain, l, x, width, heads))[t]
    {
      LinearScale(l.outputProjection, 1.0 / WIDE_OUTPUT_SCALE, y[t]);
    }
  }

  lemma MlpTransports(ops: Ops, l: Layer, x: Tensor, width: nat)
    requires ValidMlp(l, width) && Shaped(x, |x|, width)
    ensures Mlp(Transport, ops, l, x, width) == ScaleAll(1.0 / WIDE_OUTPUT_SCALE, Mlp(Plain, ops, l, x, width))
  {
    forall t | 0 <= t < |x|
      ensures Mlp(Transport, ops, l, x, width)[t] == ScaleAll(1.0 / WIDE_OUTPUT_SCALE, Mlp(Plain, ops, l, x, width))[t]
    {
      MlpRowTransports(ops, l, x[t]);
    }
  }

  lemma FinishTransports(k: ConvLayer, x: Tensor, source: Tensor, width: nat)
    requires ValidConv(k, width) && Shaped(x, |source|, width)
    ensures Finish(k, ScaleAll(1.0 / WIDE_OUTPUT_SCALE, x), source, width)
         == ScaleAll(1.0 / WIDE_OUTPUT_SCALE, Finish(k, x, source, width))
  {
    GroupedConv.ConvScales(k.second, x, Deltas(k.secondDelta, source), 1.0 / WIDE_OUTPUT_SCALE);
  }

  /** Two streams the next layer cannot tell apart: equal residuals, and hidden states that differ by
      the factor 256 once there is a residual to add them to. */
  ghost predicate Corresponds(transport: Stream, plain: Stream) {
    && transport.residual == plain.residual
    && transport.hidden == if plain.residual.None? then plain.hidden
                           else ScaleAll(1.0 / WIDE_OUTPUT_SCALE, plain.hidden)
  }

  lemma AttentionPartTransports(l: Layer, x: Tensor, width: nat, heads: nat)
    requires Valid(l, width, heads) && Shaped(x, |x|, width)
    ensures AttentionPart(Transport, l, x, width, heads)
         == ScaleAll(1.0 / WIDE_OUTPUT_SCALE, AttentionPart(Plain, l, x, width, heads))
  {
    var prepared := Prepare(l.attentionConv, x, width);
    AttentionTransports(l, prepared, width, heads);
    FinishTransports(l.attentionConv, Attention(Plain, l, prepared, width, heads), x, width);
  }

  lemma MlpPartTransports(ops: Ops, l: Layer, x: Tensor, width: nat)
    requires ValidConv(l.mlpConv, width) && ValidMlp(l, width) && Shaped(x, |x|, width)
    ensures MlpPart(Transport, ops, l, x, width) == ScaleAll(1.0 / WIDE_OUTPUT_SCALE, MlpPart(Plain, ops, l, x, width))
  {
    var prepared := Prepare(l.mlpConv, x, width);
    MlpTransports(ops, l, prepared, width);
    FinishTransports(l.mlpConv, Mlp(Plain, ops, l, prepared, width), x, width);
  }

  /** One layer keeps the correspondence. */
  lemma LayerTransports(ops: Ops, l: Layer, transport: Stream, plain: Stream, width: nat, heads: nat)
    requires Valid(l, width, heads) && Fits(transport, width) && Fits(plain, width)
    requires Corresponds(transport, plain)
    ensures Corresponds(Forward(Transport, ops, l, transport, width, heads),
                        Forward(Plain, ops, l, plain, width, heads))
  {
    if plain.residual.Some? {
      AddResidualsTransport(ops, plain.hidden, plain.residual.value, width);
    }
    var residual := if plain.residual.None? then plain.hidden
                    else AddResiduals(Plain, ops, plain.hidden, plain.residual.value, width);
    var normed := NormRows(ops, l.inputNorm, residual);
    AttentionPartTransports(l, normed, width, heads);
    var attended := AttentionPart(Plain, l, normed, width, heads);
    AddResidualsTransport(ops, attended, residual, width);
    var residual' := AddResiduals(Plain, ops, attended, residual, width);
    MlpPartTransports(ops, l, NormRows(ops, l.postNorm, residual'), width);
  }

  /** After any number of layers the residual stream is that of the unscaled model. */
  lemma {:induction false} ResidualStreamsAgree(ops: Ops, layers: seq<Layer>, embeddings: Tensor, width: nat,
                                                heads: nat)
    requires (forall l | l in layers :: Valid(l, width, heads)) && Shaped(embeddings, |embeddings|, width)
    ensures var s := Stream(embeddings, None);
            Corresponds(Run(Transport, ops, layers, s, width, heads), Run(Plain, ops, layers, s, width, heads))
    decreases |layers|
  {
    if |layers| > 0 {
      var front, s := layers[..|layers| - 1], Stream(embeddings, None);
      ResidualStreamsAgree(ops, front, embeddings, width, heads);
      LayerTransports(ops, layers[|layers| - 1], Run(Transport, ops, front, s, width, heads),
                      Run(Plain, ops, front, s, width, heads), width, heads);
    }
  }

  /** And the model returns what it would return without scaling. */
  lemma OutputsAgree(ops: Ops, layers: seq<Layer>, norm: Norm, embeddings: Tensor, heads: nat)
    requires |layers| > 0 && (forall l | l in layers :: Valid(l, |norm.weight|, heads))
    requires Shaped(embeddings, |embeddings|, |norm.weight|)
    ensures ModelOutput(Transport, ops, layers, norm, embeddings, heads)
         == ModelOutput(Plain, ops, layers, norm, embeddings, heads)
  {
    var width := |norm.weight|;
    ResidualStreamsAgree(ops, layers, embeddings, width, heads);
    var s := Run(Plain, ops, layers, Stream(embeddings, None), width, heads);
    AddResidualsTransport(ops, s.hidden, s.residual.value, width);
  }

  /** With a bias in the output projection the scaling cancels exactly when the bias is zero. */
  lemma BiasCancelsIff(w: Tensor, bias: Vec, x: Vec)
    requires Shaped(w, |w|, |x|) && |bias| == |w|
    ensures var scaled := Add(Linear(w, Scale(1.0 / WIDE_OUTPUT_SCALE, x)), bias);
            (Scale(WIDE_OUTPUT_SCALE, scaled) == Add(Linear(w, x), bias))
            <==> (forall i | 0 <= i < |bias| :: bias[i] == 0.0)
  {
    LinearScale(w, 1.0 / WIDE_OUTPUT_SCALE, x);
    var y := Linear(w, x);
    var a, b := Scale(WIDE_OUTPUT_SCALE, Add(Scale(1.0 / WIDE_OUTPUT_SCALE, y), bias)), Add(y, bias);
    forall i | 0 <= i < |bias| ensures a[i] == b[i] <==> bias[i] == 0.0 {
      assert a[i] == WIDE_OUTPUT_SCALE * (1.0 / WIDE_OUTPUT_SCALE * y[i] + bias[i]);
    }
  }
}
