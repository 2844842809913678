/** The packed draft masks of speculative decoding: their bit layout, the uniform and the ragged form,
    and the choice between them. */
module DraftMasks {
  import opened Options
  import opened Sums
  import opened Arithmetic

  // ------------------------------------------------------------------------------------------
  // Packing
  // ------------------------------------------------------------------------------------------

  /** The sum of the powers of two at the set bits, the first bit having place `place`. */
  function BitSum(bits: seq<bool>, place: nat): nat {
    if |bits| == 0 then 0 else (if bits[0] then Pow2(place) else 0) + BitSum(bits[1..], place + 1)
  }

  /** A row of 32-bit words, each seen as two 16-bit words, the low one first. */
  function PackRow(bits: seq<bool>, words: nat): (r: seq<nat>)
    requires |bits| == 32 * words
    ensures |r| == 2 * words
  {
    if words == 0 then []
    else
      var word := BitSum(bits[..32], 0);
      [word % 0x1_0000, word / 0x1_0000] + PackRow(bits[32..], words - 1)
  }

  /** Bit k of a word: shift right k times and take the lowest. */
  function Bit(word: nat, k: nat): bool {
    if k == 0 then word % 2 == 1 else Bit(word / 2, k - 1)
  }

  lemma {:induction false} BitSumShift(bits: seq<bool>, place: nat)
    ensures BitSum(bits, place + 1) == 2 * BitSum(bits, place)
    decreases |bits|
  {
    if |bits| > 0 { BitSumShift(bits[1..], place + 1); }
  }

  lemma {:induction false} BitSumBelow(bits: seq<bool>)
    ensures BitSum(bits, 0) < Pow2(|bits|)
    decreases |bits|
  {
    if |bits| > 0 {
      BitSumBelow(bits[1..]);
      BitSumShift(bits[1..], 0);
    }
  }

  lemma {:induction false} BitOfSum(bits: seq<bool>, k: nat)
    requires k < |bits|
    ensures Bit(BitSum(bits, 0), k) == bits[k]
    decreases |bits|
  {
    BitSumShift(bits[1..], 0);
    if k > 0 { BitOfSum(bits[1..], k - 1); }
  }

  lemma {:induction false} BitSumConcat(a: seq<bool>, b: seq<bool>)
    ensures BitSum(a + b, 0) == BitSum(a, 0) + Pow2(|a|) * BitSum(b, 0)
    decreases |a|
  {
    if |a| == 0 {
      assert a + b == b;
    } else {
      assert (a + b)[1..] == a[1..] + b;
      BitSumConcat(a[1..], b);
      BitSumShift(a[1..] + b, 0);
      BitSumShift(a[1..], 0);
      assert Pow2(|a|) * BitSum(b, 0) == 2 * (Pow2(|a| - 1) * BitSum(b, 0));
    }
  }

  lemma Pow2Of16()
    ensures Pow2(16) == 0x1_0000
  {
    assert Pow2(4) == 16 && Pow2(8) == 16 * Pow2(4) && Pow2(12) == 16 * Pow2(8) && Pow2(16) == 16 * Pow2(12);
  }

  /** The two halves of a 32-bit word are the sums of its two halves' bits. */
  lemma Halves(bits: seq<bool>)
    requires |bits| == 32
    ensures BitSum(bits, 0) % 0x1_0000 == BitSum(bits[..16], 0)
    ensures BitSum(bits, 0) / 0x1_0000 == BitSum(bits[16..], 0) < 0x1_0000
  {
    Pow2Of16();
    assert bits == bits[..16] + bits[16..];
    BitSumConcat(bits[..16], bits[16..]);
    BitSumBelow(bits[..16]);
    BitSumBelow(bits[16..]);
    DivModUnique(BitSum(bits, 0), 0x1_0000, BitSum(bits[16..], 0), BitSum(bits[..16], 0));
  }

  /** Unpacking undoes packing, and every packed word fits in 16 bits. */
  lemma {:induction false} PackedRowDecodes(bits: seq<bool>, words: nat, j: nat)
    requires |bits| == 32 * words && j < |bits|
    ensures j / 16 < 2 * words
    ensures PackRow(bits, words)[j / 16] < 0x1_0000
    ensures Bit(PackRow(bits, words)[j / 16], j % 16) == bits[j]
    decreases words
  {
    var front := bits[..32];
    if j < 32 {
      Halves(front);
      Pow2Of16();
      BitSumBelow(front[..16]);
      if j < 16 {
        BitOfSum(front[..16], j);
      } else {
        BitOfSum(front[16..], j - 16);
      }
    } else {
      PackedRowDecodes(bits[32..], words - 1, j - 32);
      assert (j - 32) / 16 == j / 16 - 2 && (j - 32) % 16 == j % 16;
    }
  }

  // ------------------------------------------------------------------------------------------
  // The masks
  // ------------------------------------------------------------------------------------------

  type Row = seq<nat>

  /** What a mask is for: query token i of a request with n draft tokens sees draft token j. */
  predicate Attends(n: nat, i: nat, j: nat, causal: bool) {
    j < n && (causal ==> j <= i)
  }

  function Words(n: nat): nat { (n + 31) / 32 }

  function UniformBits(n: nat, i: nat, causal: bool): (r: seq<bool>)
    ensures |r| == 32 * Words(n)
  {
    seq(32 * Words(n), j => if causal then j <= i else j < n)
  }

  /** One request's mask: a packed row for each of its n query tokens. */
  function UniformMask(n: nat, causal: bool): (r: seq<Row>)
    ensures |r| == n
  {
    seq(n, i requires 0 <= i < n => PackRow(UniformBits(n, i, causal), Words(n)))
  }

  function RaggedBits(length: nat, query: int, width: nat, causal: bool): (r: seq<bool>)
    ensures |r| == 32 * Words(width)
  {
    seq(32 * Words(width), j => j < length && (causal ==> j <= query))
  }

  /** Where a request's rows start: the rows up to its end less its own. */
  function RequestStart(lens: seq<nat>, r: nat): (start: nat)
    requires r < |lens|
    ensures start == Sum(lens[..r])
  {
    OffsetStep(lens, r);
    Offsets(lens)[r + 1] - lens[r]
  }

  function RequestStarts(lens: seq<nat>): (r: seq<nat>)
    ensures |r| == |lens| && forall i | 0 <= i < |lens| :: r[i] == Sum(lens[..i])
  {
    seq(|lens|, i requires 0 <= i < |lens| => RequestStart(lens, i))
  }

  /** The length of the request that row t belongs to, and where that request's rows start. */
  function RowLength(lens: seq<nat>, t: nat): nat
    requires t < Sum(lens)
  {
    RepeatInterleave<nat>(lens, lens)[t]
  }

  function RowStart(lens: seq<nat>, t: nat): nat
    requires t < Sum(lens)
  {
    RepeatInterleave<nat>(RequestStarts(lens), lens)[t]
  }

  /** Row t of the ragged mask, before packing. */
  function RaggedRowBits(lens: seq<nat>, width: nat, causal: bool, t: nat): (r: seq<bool>)
    requires t < Sum(lens)
    ensures |r| == 32 * Words(width)
  {
    RaggedBits(RowLength(lens, t), t - RowStart(lens, t), width, causal)
  }

  /** All requests' packed rows, one after the other. */
  function RaggedMask(lens: seq<nat>, width: nat, causal: bool): (r: seq<Row>)
    ensures |r| == Sum(lens)
    ensures forall t | 0 <= t < Sum(lens) :: r[t] == PackRow(RaggedRowBits(lens, width, causal, t), Words(width))
  {
    seq(Sum(lens), t requires 0 <= t < Sum(lens) => PackRow(RaggedRowBits(lens, width, causal, t), Words(width)))
  }

  /** Whether a packed row has bit j, which lies in its j/16-th word. */
  predicate RowBit(row: Row, j: nat) {
    j / 16 < |row| && Bit(row[j / 16], j % 16)
  }

  lemma RowBitIff(bits: seq<bool>, words: nat, j: nat)
    requires |bits| == 32 * words
    ensures RowBit(PackRow(bits, words), j) <==> j < |bits| && bits[j]
  {
    if j < |bits| { PackedRowDecodes(bits, words, j); }
  }

  lemma UniformMaskDecodes(n: nat, causal: bool, i: nat, j: nat)
    requires i < n
    ensures RowBit(UniformMask(n, causal)[i], j) <==> Attends(n, i, j, causal)
  {
    RowBitIff(UniformBits(n, i, causal), Words(n), j);
  }

  /** A row is as long as 32-bit words need it to be, and no longer. */
  lemma RowsAreTight(n: nat, causal: bool, i: nat)
    requires i < n
    ensures n <= 16 * |UniformMask(n, causal)[i]| < n + 32 && |UniformMask(n, causal)[i]| % 2 == 0
  {
  }

  lemma {:induction false} RaggedRowOfRequest(lens: seq<nat>, width: nat, causal: bool, r: nat, i: nat)
    requires r < |lens| && i < lens[r]
    ensures Sum(lens[..r]) + i < Sum(lens)
    ensures RaggedRowBits(lens, width, causal, Sum(lens[..r]) + i) == RaggedBits(lens[r], i, width, causal)
  {
    RowLengthOfRequest(lens, r, i);
    RowStartOfRequest(lens, r, i);
  }

  lemma {:induction false} RowLengthOfRequest(lens: seq<nat>, r: nat, i: nat)
    requires r < |lens| && i < lens[r]
    ensures Sum(lens[..r]) + i < Sum(lens) && RowLength(lens, Sum(lens[..r]) + i) == lens[r]
  {
    InterleaveAt<nat>(lens, lens, r, i);
  }

  lemma {:induction false} RowStartOfRequest(lens: seq<nat>, r: nat, i: nat)
    requires r < |lens| && i < lens[r]
    ensures Sum(lens[..r]) + i < Sum(lens) && RowStart(lens, Sum(lens[..r]) + i) == Sum(lens[..r])
  {
    InterleaveAt<nat>(RequestStarts(lens), lens, r, i);
  }

  lemma {:induction false} RaggedMaskDecodes(lens: seq<nat>, width: nat, causal: bool, r: nat, i: nat, j: nat)
    requires r < |lens| && i < lens[r] <= width
    ensures Sum(lens[..r]) + i < Sum(lens)
    ensures RowBit(RaggedMask(lens, width, causal)[Sum(lens[..r]) + i], j) <==> Attends(lens[r], i, j, causal)
  {
    RaggedRowOfRequest(lens, width, causal, r, i);
    RowBitIff(RaggedBits(lens[r], i, width, causal), Words(width), j);
  }

  /** For equal lengths the ragged mask is the uniform mask over and over. */
  lemma EqualLengthsSameMask(n: nat, q: nat, causal: bool, r: nat, i: nat)
    requires r < n && i < q
    ensures r * q + i < |RaggedMask(Repeat(q, n), q, causal)|
    ensures RaggedMask(Repeat(q, n), q, causal)[r * q + i] == UniformMask(q, causal)[i]
  {
    var lens := Repeat(q, n);
    assert lens[..r] == Repeat(q, r);
    SumOfRepeat(q, r);
    RaggedRowOfRequest(lens, q, causal, r, i);
    assert RaggedBits(q, i, q, causal) == UniformBits(q, i, causal);
  }

  // ------------------------------------------------------------------------------------------
  // Choosing between them
  // ------------------------------------------------------------------------------------------

  function Nonzero(lens: seq<nat>): seq<nat> {
    if |lens| == 0 then [] else (if lens[0] > 0 then [lens[0]] else []) + Nonzero(lens[1..])
  }

  function Largest(lens: seq<nat>): nat {
    if |lens| == 0 then 0
    else if lens[0] > Largest(lens[1..]) then lens[0] else Largest(lens[1..])
  }

  /** The query width, and the lengths if the ragged form is needed. */
  datatype QueryLens = QueryLens(width: nat, ragged: Option<seq<nat>>)

  function ComputeQueryLens(lens: seq<nat>, tokens: nat): QueryLens {
    if |lens| == 0 || tokens == 0 then QueryLens(1, None)
    else
      var nonzero := Nonzero(lens);
      var width := if |nonzero| > 0 then Largest(nonzero) else 1;
      var uniform := |nonzero| <= 1 || forall k | 0 <= k < |nonzero| :: nonzero[k] == nonzero[0];
      if uniform && tokens == |lens| * width then QueryLens(width, None)
      else if width <= 1 then QueryLens(1, None)
      else QueryLens(width, Some(lens))
  }

  lemma {:induction false} NonzeroMembers(lens: seq<nat>)
    ensures forall x | x in Nonzero(lens) :: x in lens && x > 0
    ensures forall x | x in lens && x > 0 :: x in Nonzero(lens)
    decreases |lens|
  {
    if |lens| > 0 {
      NonzeroMembers(lens[1..]);
      assert forall x | x in lens :: x == lens[0] || x in lens[1..];
    }
  }

  lemma {:induction false} LargestIsGreatest(lens: seq<nat>)
    ensures forall x | x in lens :: x <= Largest(lens)
    ensures |lens| > 0 ==> Largest(lens) in lens
    decreases |lens|
  {
    if |lens| > 0 {
      LargestIsGreatest(lens[1..]);
      assert forall x | x in lens :: x == lens[0] || x in lens[1..];
      assert Largest(lens) == lens[0] || (|lens| > 1 && Largest(lens) in lens[1..]);
    }
  }

  ghost predicate AllAre(lens: seq<nat>, q: nat) {
    forall k | 0 <= k < |lens| :: lens[k] == q
  }

  lemma {:induction false} SumBounded(lens: seq<nat>, q: nat)
    requires forall k | 0 <= k < |lens| :: lens[k] <= q
    ensures Sum(lens) <= |lens| * q
    ensures Sum(lens) == |lens| * q <==> AllAre(lens, q)
    decreases |lens|
  {
    if |lens| > 0 {
      SumBounded(lens[1..], q);
      AllAreStep(lens, q);
      assert |lens| * q == |lens[1..]| * q + q;
    }
  }

  lemma AllAreStep(lens: seq<nat>, q: nat)
    requires |lens| > 0
    ensures AllAre(lens, q) <==> lens[0] == q && AllAre(lens[1..], q)
  {
  }

  /** The width bounds every length, and is one of them unless all are zero. */
  lemma WidthIsLargest(lens: seq<nat>, tokens: nat)
    requires tokens > 0
    ensures var width := ComputeQueryLens(lens, tokens).width;
            && (forall k | 0 <= k < |lens| :: lens[k] <= width)
            && (width > 1 ==> width in lens)
  {
    NonzeroMembers(lens);
    LargestIsGreatest(Nonzero(lens));
    forall k | 0 <= k < |lens| && lens[k] > 0 ensures lens[k] <= Largest(Nonzero(lens)) && |Nonzero(lens)| > 0 {
      assert lens[k] in Nonzero(lens);
    }
  }

  /** The width is never zero, and without any token the masks are left out. */
  lemma NoTokensNoMask(lens: seq<nat>, tokens: nat)
    ensures ComputeQueryLens(lens, tokens).width >= 1
    ensures tokens == 0 || (forall k | 0 <= k < |lens| :: lens[k] == 0) ==>
              ComputeQueryLens(lens, tokens) == QueryLens(1, None)
  {
    NonzeroMembers(lens);
    var nonzero := Nonzero(lens);
    LargestIsGreatest(nonzero);
    if |nonzero| > 0 { assert nonzero[0] in nonzero && nonzero[0] in lens; }
  }

  ghost predicate AllEqual(lens: seq<nat>) {
    forall i, k | 0 <= i < |lens| && 0 <= k < |lens| :: lens[i] == lens[k]
  }

  ghost predicate NoneExceedsOne(lens: seq<nat>) {
    forall i | 0 <= i < |lens| :: lens[i] <= 1
  }

  /** When the token count is that of the requests, the ragged form is left out exactly when all
      lengths are equal or none exceeds one. */
  lemma OmittedIff(lens: seq<nat>, tokens: nat)
    requires tokens == Sum(lens)
    ensures ComputeQueryLens(lens, tokens).ragged.None? <==> AllEqual(lens) || NoneExceedsOne(lens)
  {
    if tokens == 0 {
      ZeroSum(lens);
    } else {
      var q := ComputeQueryLens(lens, tokens);
      WidthIsLargest(lens, tokens);
      NonzeroMembers(lens);
      SumBounded(lens, q.width);
      if AllEqual(lens) && q.width > 1 {
        assert forall k | 0 <= k < |lens| :: lens[k] == q.width;
        assert forall k | 0 <= k < |Nonzero(lens)| :: Nonzero(lens)[k] in lens;
        assert forall k | 0 <= k < |Nonzero(lens)| :: Nonzero(lens)[k] == q.width;
      }
    }
  }

  lemma {:induction false} ZeroSum(lens: seq<nat>)
    requires Sum(lens) == 0
    ensures forall k | 0 <= k < |lens| :: lens[k] == 0
    decreases |lens|
  {
    if |lens| > 0 {
      ZeroSum(lens[1..]);
      assert forall k | 1 <= k < |lens| :: lens[k] == lens[1..][k - 1];
    }
  }

  /** Where the uniform form is chosen, every request with tokens has the full width. */
  lemma UniformMeansFull(lens: seq<nat>, tokens: nat, r: nat)
    requires ComputeQueryLens(lens, tokens).ragged.None? && ComputeQueryLens(lens, tokens).width > 1
    requires r < |lens| && lens[r] > 0
    ensures lens[r] == ComputeQueryLens(lens, tokens).width
  {
    NonzeroMembers(lens);
    LargestIsGreatest(Nonzero(lens));
    var nonzero := Nonzero(lens);
    assert lens[r] in nonzero && Largest(nonzero) in nonzero;
  }

  /** With padded token counts an empty request may hide in the uniform form. The rows of every
      request with tokens are where the uniform form has them exactly when the empty ones are at the
      back. */
  lemma UniformRowsMatchIff(lens: seq<nat>, tokens: nat)
    requires ComputeQueryLens(lens, tokens).ragged.None? && ComputeQueryLens(lens, tokens).width > 1
    ensures (forall r | 0 <= r < |lens| && lens[r] > 0 :: Offsets(lens)[r] == r * ComputeQueryLens(lens, tokens).width)
       <==> EmptyAtBack(lens)
  {
    var width := ComputeQueryLens(lens, tokens).width;
    if EmptyAtBack(lens) {
      forall r | 0 <= r < |lens| && lens[r] > 0 ensures Offsets(lens)[r] == r * width {
        forall k | 0 <= k < r ensures lens[k] == width { UniformMeansFull(lens, tokens, k); }
        SumBounded(lens[..r], width);
      }
    }
    if forall r | 0 <= r < |lens| && lens[r] > 0 :: Offsets(lens)[r] == r * width {
      forall r, k | 0 <= k < r < |lens| && lens[r] > 0 ensures lens[k] > 0 {
        forall m | 0 <= m < |lens| ensures lens[m] <= width {
          if lens[m] > 0 { UniformMeansFull(lens, tokens, m); }
        }
        SumBounded(lens[..r], width);
        assert lens[..r][k] == width;
      }
    }
  }

  ghost predicate EmptyAtBack(lens: seq<nat>) {
    forall r, k | 0 <= k < r < |lens| && lens[r] > 0 :: lens[k] > 0
  }

  // ------------------------------------------------------------------------------------------
  // The mask of a batch
  // ------------------------------------------------------------------------------------------

  datatype Mask = NoMask | Uniform(width: nat, requests: seq<seq<Row>>) | Ragged(rows: seq<Row>)

  function Min(a: nat, b: nat): nat { if a < b then a else b }

  function DecodeMask(q: QueryLens, requests: nat, maxRequests: nat, causal: bool): Mask {
    if q.width <= 1 then NoMask
    else if q.ragged.None? then Uniform(q.width, Repeat(UniformMask(q.width, causal), Min(requests, maxRequests)))
    else Ragged(RaggedMask(q.ragged.value, q.width, causal))
  }

  /** What a kernel reads for draft token j at query token i of request r, in row t of the batch.
      Without a mask a request's only token sees itself; the uniform form finds the request and the
      row by dividing. */
  predicate Sees(mask: Mask, lens: seq<nat>, r: nat, i: nat, j: nat)
    requires r < |lens|
  {
    var t := Offsets(lens)[r] + i;
    match mask
    case NoMask => i == 0 && j == 0
    case Uniform(width, requests) =>
      width > 0 && t / width == r < |requests| && t % width < |requests[r]| && RowBit(requests[r][t % width], j)
    case Ragged(rows) => t < |rows| && RowBit(rows[t], j)
  }

  /** Every query token of every request reads its attention relation. */
  ghost predicate EveryRequestReads(mask: Mask, lens: seq<nat>, causal: bool) {
    forall r, i, j: nat | 0 <= r < |lens| && 0 <= i < lens[r] ::
      Sees(mask, lens, r, i, j) <==> Attends(lens[r], i, j, causal)
  }

  ghost predicate FormFits(q: QueryLens, lens: seq<nat>) {
    q.ragged.Some? || q.width <= 1 || EmptyAtBack(lens)
  }

  /** The requests that have tokens all have the same number. */
  ghost predicate SameWhereAny(lens: seq<nat>) {
    forall i, k | 0 <= i < |lens| && 0 <= k < |lens| && lens[i] > 0 && lens[k] > 0 :: lens[i] == lens[k]
  }

  /** What a caller can tell from the lengths and the padded token count. */
  ghost predicate LensFit(lens: seq<nat>, tokens: nat) {
    || NoneExceedsOne(lens) || EmptyAtBack(lens) || !SameWhereAny(lens) || tokens != |lens| * Largest(lens)
  }

  /** For every token count that covers the requests, every request reads its attention relation if
      and only if no request has more than one token, the empty requests are at the back, the requests
      with tokens differ in their number, or the token count is not that of full requests throughout. */
  lemma {:induction false} ChosenMaskIsRightIff(lens: seq<nat>, tokens: nat, maxRequests: nat, causal: bool)
    requires tokens >= Sum(lens) && |lens| <= maxRequests
    ensures var q := ComputeQueryLens(lens, tokens);
            EveryRequestReads(DecodeMask(q, |lens|, maxRequests, causal), lens, causal) <==> LensFit(lens, tokens)
  {
    var q := ComputeQueryLens(lens, tokens);
    var mask := DecodeMask(q, |lens|, maxRequests, causal);
    FormFitsIff(lens, tokens);
    if FormFits(q, lens) {
      forall r, i, j: nat | 0 <= r < |lens| && 0 <= i < lens[r]
        ensures Sees(mask, lens, r, i, j) <==> Attends(lens[r], i, j, causal)
      {
        FittingFormSees(lens, tokens, maxRequests, causal, r, i, j);
      }
    } else {
      var r := MisplacedRequest(lens, tokens);
      assert Attends(lens[r], 0, 0, causal) && !Sees(mask, lens, r, 0, 0);
    }
  }

  /** The chosen form fits exactly when the lengths and the token count do. */
  lemma {:induction false} FormFitsIff(lens: seq<nat>, tokens: nat)
    requires tokens >= Sum(lens)
    ensures FormFits(ComputeQueryLens(lens, tokens), lens) <==> LensFit(lens, tokens)
  {
    if tokens == 0 {
      ZeroSum(lens);
    } else if |lens| > 0 {
      var nonzero := Nonzero(lens);
      NonzeroMembers(lens);
      LargestNonzero(lens);
      UniformIffSame(lens);
      WidthIsLargest(lens, tokens);
      if |nonzero| == 0 {
        forall i | 0 <= i < |lens| ensures lens[i] == 0 { assert lens[i] in lens; }
      }
    }
  }

  lemma UniformIffSame(lens: seq<nat>)
    ensures var nonzero := Nonzero(lens);
            (|nonzero| <= 1 || forall k | 0 <= k < |nonzero| :: nonzero[k] == nonzero[0]) <==> SameWhereAny(lens)
  {
    var nonzero := Nonzero(lens);
    NonzeroMembers(lens);
    if SameWhereAny(lens) {
      forall k | 0 <= k < |nonzero| ensures nonzero[k] == nonzero[0] {
        assert nonzero[k] in nonzero && nonzero[0] in nonzero;
      }
    }
    if |nonzero| <= 1 || forall k | 0 <= k < |nonzero| :: nonzero[k] == nonzero[0] {
      forall i, k | 0 <= i < |lens| && 0 <= k < |lens| && lens[i] > 0 && lens[k] > 0 ensures lens[i] == lens[k] {
        assert lens[i] in nonzero && lens[k] in nonzero;
      }
    }
  }

  lemma {:induction false} LargestNonzero(lens: seq<nat>)
    ensures Largest(Nonzero(lens)) == Largest(lens)
    decreases |lens|
  {
    NonzeroMembers(lens);
    LargestIsGreatest(lens);
    LargestIsGreatest(Nonzero(lens));
    if Largest(lens) > 0 {
      assert Largest(lens) in Nonzero(lens);
    }
    assert |Nonzero(lens)| > 0 ==> Nonzero(lens)[0] in Nonzero(lens);
  }

  lemma {:induction false} FittingFormSees(lens: seq<nat>, tokens: nat, maxRequests: nat, causal: bool, r: nat,
                                           i: nat, j: nat)
    requires tokens >= Sum(lens) && |lens| <= maxRequests && FormFits(ComputeQueryLens(lens, tokens), lens)
    requires r < |lens| && i < lens[r]
    ensures var q := ComputeQueryLens(lens, tokens);
            Sees(DecodeMask(q, |lens|, maxRequests, causal), lens, r, i, j) <==> Attends(lens[r], i, j, causal)
  {
    var q := ComputeQueryLens(lens, tokens);
    OffsetStep(lens, r);
    OffsetsOrdered(lens, r + 1, |lens|);
    LastOffset(lens);
    WidthIsLargest(lens, tokens);
    if q.width > 1 {
      if q.ragged.None? {
        UniformRowsMatchIff(lens, tokens);
        UniformMeansFull(lens, tokens, r);
        UniformSees(lens, q.width, maxRequests, causal, r, i, j);
      } else {
        RaggedSees(lens, q.width, causal, r, i, j);
      }
    }
  }

  /** With an empty request in front of one with tokens, the uniform form looks for some request in the
      rows of another. */
  lemma MisplacedRequest(lens: seq<nat>, tokens: nat) returns (r: nat)
    requires !FormFits(ComputeQueryLens(lens, tokens), lens)
    ensures r < |lens| && lens[r] > 0 && Offsets(lens)[r] / ComputeQueryLens(lens, tokens).width != r
  {
    var width := ComputeQueryLens(lens, tokens).width;
    UniformRowsMatchIff(lens, tokens);
    r :| 0 <= r < |lens| && lens[r] > 0 && Offsets(lens)[r] != r * width;
    forall m | 0 <= m < |lens| ensures lens[m] <= width {
      if lens[m] > 0 { UniformMeansFull(lens, tokens, m); }
    }
    SumBounded(lens[..r], width);
    BelowMultiple(Offsets(lens)[r], width, r);
  }

  lemma BelowMultiple(x: nat, n: nat, q: nat)
    requires n > 0 && x < q * n
    ensures x / n != q
  {
    DivModSplit(x, n);
  }

  /** Six padded tokens over lengths 2, 0 and 2 take the uniform form, and the third request then reads
      the wrong rows. A batch looks so only if a request in its middle has no tokens; padding requests,
      which are appended, cannot bring it about. */
  lemma {:induction false} PaddedMiddleMisread(causal: bool)
    ensures ComputeQueryLens([2, 0, 2], 6) == QueryLens(2, None)
    ensures !EmptyAtBack([2, 0, 2])
    ensures !EveryRequestReads(DecodeMask(QueryLens(2, None), 3, 3, causal), [2, 0, 2], causal)
  {
    var lens: seq<nat> := [2, 0, 2];
    assert lens[2] > 0 && lens[1] == 0;
    PaddedMiddleForm();
    ChosenMaskIsRightIff(lens, 6, 3, causal);
    FormFitsIff(lens, 6);
  }

  lemma {:induction false} PaddedMiddleForm()
    ensures ComputeQueryLens([2, 0, 2], 6) == QueryLens(2, None) && Sum([2, 0, 2]) == 4
  {
    var lens: seq<nat> := [2, 0, 2];
    assert lens[1..] == [0, 2] && lens[1..][1..] == [2] && lens[1..][1..][1..] == [];
    assert Nonzero([2]) == [2] + Nonzero([]) && Nonzero([0, 2]) == [] + Nonzero([2]);
    assert Nonzero(lens) == [2] + Nonzero([0, 2]) == [2, 2];
    assert [2, 2][1..] == [2] && Largest([2]) == 2 && Largest([2, 2]) == 2;
    assert Sum([2]) == 2 && Sum([0, 2]) == 2;
  }

  lemma {:induction false} UniformSees(lens: seq<nat>, width: nat, maxRequests: nat, causal: bool, r: nat, i: nat,
                                       j: nat)
    requires width > 1 && r < |lens| <= maxRequests && i < lens[r] == width && Offsets(lens)[r] == r * width
    ensures Sees(DecodeMask(QueryLens(width, None), |lens|, maxRequests, causal), lens, r, i, j)
            <==> Attends(lens[r], i, j, causal)
  {
    DivModUnique(r * width + i, width, r, i);
    UniformMaskDecodes(width, causal, i, j);
  }

  lemma {:induction false} RaggedSees(lens: seq<nat>, width: nat, causal: bool, r: nat, i: nat, j: nat)
    requires r < |lens| && i < lens[r] <= width
    ensures Sees(Ragged(RaggedMask(lens, width, causal)), lens, r, i, j) <==> Attends(lens[r], i, j, causal)
  {
    RaggedMaskDecodes(lens, width, causal, r, i, j);
    SeesItsRow(RaggedMask(lens, width, causal), lens, r, i, j, Attends(lens[r], i, j, causal));
  }

  lemma SeesItsRow(rows: seq<Row>, lens: seq<nat>, r: nat, i: nat, j: nat, attends: bool)
    requires r < |lens| && Sum(lens[..r]) + i < |rows|
    requires RowBit(rows[Sum(lens[..r]) + i], j) <==> attends
    ensures Sees(Ragged(rows), lens, r, i, j) <==> attends
  {
    assert Offsets(lens)[r] == Sum(lens[..r]);
  }

  /** The cache of uniform masks. */
  class MaskCache {
    const maxRequests: nat
    var cache: map<(nat, bool), seq<seq<Row>>>

    ghost predicate Valid()
      reads this
    {
      forall key | key in cache :: cache[key] == Repeat(UniformMask(key.0, key.1), maxRequests)
    }

    constructor (maxRequests: nat)
      ensures Valid() && this.maxRequests == maxRequests && cache == map[]
    {
      this.maxRequests := maxRequests;
      cache := map[];
    }

    method GetDecodeMask(q: QueryLens, requests: nat, causal: bool) returns (mask: Mask)
      requires Valid()
      modifies this`cache
      ensures Valid()
      ensures mask == DecodeMask(q, requests, maxRequests, causal)
      ensures forall key | key in old(cache) :: key in cache && cache[key] == old(cache)[key]
    {
      if q.width <= 1 {
        return NoMask;
      }
      if q.ragged.Some? {
        return Ragged(RaggedMask(q.ragged.value, q.width, causal));
      }
      var key := (q.width, causal);
      if key !in cache {
        cache := cache[key := Repeat(UniformMask(q.width, causal), maxRequests)];
      }
      mask := Uniform(q.width, cache[key][..Min(requests, maxRequests)]);
      assert mask.requests == Repeat(UniformMask(q.width, causal), Min(requests, maxRequests));
    }
  }
}
