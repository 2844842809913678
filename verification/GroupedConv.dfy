/** The grouped causal convolution of the draft layers, whose taps stop at the start of each request's
    block. */
module GroupedConv {
  import opened Arithmetic
  import opened Tensors

  /** Base coefficients for every tap and channel; channels come in groups. */
  datatype Kernel = Kernel(base: Tensor, width: nat, groups: nat, groupSize: nat, blockSize: nat, taps: nat)

  ghost predicate Valid(k: Kernel) {
    && k.taps >= 1 && k.groupSize >= 1 && k.blockSize >= 1
    && k.width == k.groups * k.groupSize
    && Shaped(k.base, k.taps, k.width)
  }

  /** The input rows, and for each of them a correction to every tap and group. */
  ghost predicate Fits(k: Kernel, h: Tensor, delta: seq<Tensor>) {
    && Valid(k)
    && Shaped(h, |h|, k.width)
    && |delta| == |h| && forall t | 0 <= t < |h| :: Shaped(delta[t], k.taps, k.groups)
  }

  // ------------------------------------------------------------------------------------------
  // Positions
  // ------------------------------------------------------------------------------------------

  function BitAnd(a: nat, b: nat): nat {
    if a == 0 || b == 0 then 0 else (a % 2) * (b % 2) + 2 * BitAnd(a / 2, b / 2)
  }

  /** A row's position in its block: masked when the block size is a power of two, by remainder else. */
  function Position(t: nat, blockSize: nat): nat
    requires blockSize >= 1
  {
    if BitAnd(blockSize, blockSize - 1) == 0 then BitAnd(t, blockSize - 1) else t % blockSize
  }

  lemma BitSquare(b: nat)
    requires b < 2
    ensures b * b == b
  {
  }

  lemma {:induction false} BitAndSelf(a: nat)
    ensures BitAnd(a, a) == a
  {
    if a > 0 {
      BitAndSelf(a / 2);
      BitSquare(a % 2);
    }
  }

  lemma OddSharesBits(b: nat)
    requires b > 1 && b % 2 == 1
    ensures BitAnd(b, b - 1) > 0
  {
    BitAndSelf(b / 2);
    assert (b - 1) / 2 == b / 2;
  }

  /** No bit in common with its predecessor: a power of two. */
  lemma {:induction false} PowerOfTwo(b: nat) returns (k: nat)
    requires b >= 1 && BitAnd(b, b - 1) == 0
    ensures b == Pow2(k)
  {
    if b == 1 {
      k := 0;
    } else if b % 2 == 1 {
      OddSharesBits(b);
      assert false;
    } else {
      assert (b - 1) / 2 == b / 2 - 1;
      var j := PowerOfTwo(b / 2);
      k := j + 1;
    }
  }

  lemma {:induction false} MaskIsRemainder(t: nat, k: nat)
    ensures BitAnd(t, Pow2(k) - 1) == t % Pow2(k)
    decreases k
  {
    var n := Pow2(k);
    if k == 0 {
    } else if t == 0 {
      DivModUnique(0, n, 0, 0);
    } else {
      MaskIsRemainder(t / 2, k - 1);
      assert (n - 1) % 2 == 1 && (n - 1) / 2 == Pow2(k - 1) - 1;
      assert (t % 2) * 1 == t % 2;
      RemainderOfDouble(t, Pow2(k - 1));
    }
  }

  lemma RemainderOfDouble(t: nat, half: nat)
    requires half >= 1
    ensures t % (2 * half) == 2 * (t / 2 % half) + t % 2
  {
    var q, r := t / 2 / half, t / 2 % half;
    assert t / 2 == q * half + r;
    Regroup(q, half);
    DivModUnique(t, 2 * half, q, 2 * r + t % 2);
  }

  lemma Regroup(q: nat, half: nat)
    ensures q * (2 * half) == 2 * (q * half)
  {
  }

  lemma PositionIsRemainder(t: nat, blockSize: nat)
    requires blockSize >= 1
    ensures Position(t, blockSize) == t % blockSize <= t
  {
    if BitAnd(blockSize, blockSize - 1) == 0 {
      var k := PowerOfTwo(blockSize);
      MaskIsRemainder(t, k);
    }
    RemainderBelow(t, blockSize);
  }

  lemma RemainderBelow(t: nat, n: nat)
    requires n >= 1
    ensures t % n <= t
  {
  }

  // ------------------------------------------------------------------------------------------
  // What the convolution computes
  // ------------------------------------------------------------------------------------------

  function GroupOf(c: nat, groups: nat, groupSize: nat): (g: nat)
    requires groupSize >= 1 && c < groups * groupSize
    ensures g < groups
  {
    var g := c / groupSize;
    assert g < groups by {
      assert g * groupSize <= c;
      if g >= groups { MulMonotone(groupSize, groups, g); }
    }
    g
  }

  function Coefficient(k: Kernel, delta: Tensor, tap: nat, c: nat): real
    requires Valid(k) && Shaped(delta, k.taps, k.groups) && tap < k.taps && c < k.width
  {
    k.base[tap][c] + delta[tap][GroupOf(c, k.groups, k.groupSize)]
  }

  function Product(k: Kernel, delta: Tensor, tap: nat, c: nat, row: Vec): real
    requires Valid(k) && Shaped(delta, k.taps, k.groups) && tap < k.taps && c < k.width == |row|
  {
    Coefficient(k, delta, tap, c) * row[c]
  }

  /** One tap, nothing when it would reach before the start of the row's block. */
  function TapAt(k: Kernel, h: Tensor, delta: seq<Tensor>, t: nat, c: nat, tap: nat): real
    requires Fits(k, h, delta) && t < |h| && c < k.width && tap < k.taps
  {
    RemainderBelow(t, k.blockSize);
    if tap <= t % k.blockSize then Product(k, delta[t], tap, c, h[t - tap]) else 0.0
  }

  /** The contributions of the first `taps` taps to row t, channel c. */
  function Taps(k: Kernel, h: Tensor, delta: seq<Tensor>, t: nat, c: nat, taps: nat): (r: Vec)
    requires Fits(k, h, delta) && t < |h| && c < k.width && taps <= k.taps
    ensures |r| == taps && forall tap | 0 <= tap < taps :: r[tap] == TapAt(k, h, delta, t, c, tap)
  {
    seq(taps, tap requires 0 <= tap < taps => TapAt(k, h, delta, t, c, tap))
  }

  function ConvAt(k: Kernel, h: Tensor, delta: seq<Tensor>, t: nat, c: nat, taps: nat): real
    requires Fits(k, h, delta) && t < |h| && c < k.width && taps <= k.taps
  {
    Total(Taps(k, h, delta, t, c, taps))
  }

  function Conv(k: Kernel, h: Tensor, delta: seq<Tensor>): (r: Tensor)
    requires Fits(k, h, delta)
    ensures Shaped(r, |h|, k.width)
    ensures forall t, c | 0 <= t < |h| && 0 <= c < k.width :: r[t][c] == ConvAt(k, h, delta, t, c, k.taps)
  {
    seq(|h|, t requires 0 <= t < |h| =>
      seq(k.width, c requires 0 <= c < k.width => ConvAt(k, h, delta, t, c, k.taps)))
  }

  // ------------------------------------------------------------------------------------------
  // How it is computed
  // ------------------------------------------------------------------------------------------

  /** The rows moved down by `tap`, with zeros in front. */
  function Shifted(h: Tensor, tap: nat, t: nat, c: nat): real
    requires t < |h| && (t >= tap ==> c < |h[t - tap]|)
  {
    if t >= tap then h[t - tap][c] else 0.0
  }

  /** One tap's contribution to one entry. */
  function Term(k: Kernel, h: Tensor, delta: seq<Tensor>, t: nat, c: nat, tap: nat): real
    requires Fits(k, h, delta) && t < |h| && c < k.width && tap < k.taps
  {
    Coefficient(k, delta[t], tap, c) * Shifted(h, tap, t, c) * (if Position(t, k.blockSize) >= tap then 1.0 else 0.0)
  }

  lemma TermAddsTap(k: Kernel, h: Tensor, delta: seq<Tensor>, t: nat, c: nat, tap: nat)
    requires Fits(k, h, delta) && t < |h| && c < k.width && tap < k.taps
    ensures ConvAt(k, h, delta, t, c, tap) + Term(k, h, delta, t, c, tap) == ConvAt(k, h, delta, t, c, tap + 1)
  {
    PositionIsRemainder(t, k.blockSize);
    assert Taps(k, h, delta, t, c, tap + 1)[..tap] == Taps(k, h, delta, t, c, tap);
    assert Term(k, h, delta, t, c, tap) == TapAt(k, h, delta, t, c, tap);
  }

  /** Tap by tap, as _grouped_conv accumulates; each shift must leave at least no row behind. */
  method GroupedConvolution(k: Kernel, h: Tensor, delta: seq<Tensor>) returns (output: Tensor)
    requires Fits(k, h, delta) && k.taps - 1 <= |h|
    ensures output == Conv(k, h, delta)
  {
    output := seq(|h|, t requires 0 <= t < |h| =>
                seq(k.width, c requires 0 <= c < k.width => Coefficient(k, delta[t], 0, c) * h[t][c]));
    forall t, c | 0 <= t < |h| && 0 <= c < k.width ensures output[t][c] == ConvAt(k, h, delta, t, c, 1) {
      FirstTap(k, h, delta, t, c);
    }
    for tap := 1 to k.taps
      invariant Shaped(output, |h|, k.width)
      invariant forall t, c | 0 <= t < |h| && 0 <= c < k.width :: output[t][c] == ConvAt(k, h, delta, t, c, tap)
    {
      var before := output;
      output := seq(|h|, t requires 0 <= t < |h| =>
                  seq(k.width, c requires 0 <= c < k.width => before[t][c] + Term(k, h, delta, t, c, tap)));
      forall t, c | 0 <= t < |h| && 0 <= c < k.width ensures output[t][c] == ConvAt(k, h, delta, t, c, tap + 1) {
        TermAddsTap(k, h, delta, t, c, tap);
      }
    }
    SameRows(output, Conv(k, h, delta), |h|, k.width);
  }

  lemma SameRows(x: Tensor, y: Tensor, rows: nat, width: nat)
    requires Shaped(x, rows, width) && Shaped(y, rows, width)
    requires forall t, c | 0 <= t < rows && 0 <= c < width :: x[t][c] == y[t][c]
    ensures x == y
  {
    forall t | 0 <= t < rows ensures x[t] == y[t] { }
  }

  lemma FirstTap(k: Kernel, h: Tensor, delta: seq<Tensor>, t: nat, c: nat)
    requires Fits(k, h, delta) && t < |h| && c < k.width
    ensures Coefficient(k, delta[t], 0, c) * h[t][c] == ConvAt(k, h, delta, t, c, 1)
  {
    TotalOfOne(TapAt(k, h, delta, t, c, 0));
    assert Taps(k, h, delta, t, c, 1) == [TapAt(k, h, delta, t, c, 0)];
  }

  /** What a row receives from the n nearest rows up to itself in channel c, which is in group g: the row at
      distance d counts with the base coefficient of that distance, corrected for the receiving row. */
  function Received(k: Kernel, h: Tensor, delta: seq<Tensor>, t: nat, c: nat, g: nat, n: nat): real
    requires Fits(k, h, delta) && t < |h| && c < k.width && g < k.groups && n <= k.taps && n <= t + 1
  {
    if n == 0 then 0.0
    else Received(k, h, delta, t, c, g, n - 1) + (k.base[n - 1][c] + delta[t][n - 1][g]) * h[t - (n - 1)][c]
  }

  /** An output entry is what the row receives from the rows of its own block at distances below `taps`. */
  lemma OutputEntry(k: Kernel, h: Tensor, delta: seq<Tensor>, t: nat, c: nat, g: nat)
    requires Fits(k, h, delta) && t < |h| && c < k.width
    requires g < k.groups && g * k.groupSize <= c < (g + 1) * k.groupSize
    ensures var before := t % k.blockSize;
            && 0 <= before <= t
            && Conv(k, h, delta)[t][c]
               == Received(k, h, delta, t, c, g, if before + 1 < k.taps then before + 1 else k.taps)
  {
    RemainderBelow(t, k.blockSize);
    assert (g + 1) * k.groupSize == g * k.groupSize + k.groupSize;
    DivModUnique(c, k.groupSize, g, c - g * k.groupSize);
    var before := t % k.blockSize;
    var n := if before + 1 < k.taps then before + 1 else k.taps;
    ConvReceives(k, h, delta, t, c, g, n);
    NothingBeyond(k, h, delta, t, c, n, k.taps);
  }

  lemma {:induction false} ConvReceives(k: Kernel, h: Tensor, delta: seq<Tensor>, t: nat, c: nat, g: nat, n: nat)
    requires Fits(k, h, delta) && t < |h| && c < k.width && g < k.groups && g == c / k.groupSize
    requires n <= k.taps && n <= t % k.blockSize + 1 && n <= t + 1
    ensures ConvAt(k, h, delta, t, c, n) == Received(k, h, delta, t, c, g, n)
    decreases n
  {
    if n > 0 {
      ConvReceives(k, h, delta, t, c, g, n - 1);
      assert Taps(k, h, delta, t, c, n)[..n - 1] == Taps(k, h, delta, t, c, n - 1);
    }
  }

  lemma {:induction false} NothingBeyond(k: Kernel, h: Tensor, delta: seq<Tensor>, t: nat, c: nat, n: nat, m: nat)
    requires Fits(k, h, delta) && t < |h| && c < k.width && n <= m <= k.taps && (n < m ==> n > t % k.blockSize)
    ensures ConvAt(k, h, delta, t, c, m) == ConvAt(k, h, delta, t, c, n)
    decreases m - n
  {
    if n < m {
      NothingBeyond(k, h, delta, t, c, n, m - 1);
      assert Taps(k, h, delta, t, c, m)[..m - 1] == Taps(k, h, delta, t, c, m - 1);
    }
  }

  // ------------------------------------------------------------------------------------------
  // Blocks do not mix, and scaling passes through
  // ------------------------------------------------------------------------------------------

  /** A row's output depends on no row of another block and on no later row. */
  lemma BlocksDoNotMix(k: Kernel, h: Tensor, h': Tensor, delta: seq<Tensor>, delta': seq<Tensor>, t: nat, c: nat)
    requires Fits(k, h, delta) && Fits(k, h', delta') && t < |h| && t < |h'| && c < k.width
    requires delta[t] == delta'[t]
    requires forall s | 0 <= s <= t && s / k.blockSize == t / k.blockSize :: h[s] == h'[s]
    ensures Conv(k, h, delta)[t][c] == Conv(k, h', delta')[t][c]
  {
    RemainderBelow(t, k.blockSize);
    forall tap | 0 <= tap < k.taps
      ensures Taps(k, h, delta, t, c, k.taps)[tap] == Taps(k, h', delta', t, c, k.taps)[tap]
    {
      if tap <= t % k.blockSize {
        SameBlock(t, tap, k.blockSize);
        assert h[t - tap] == h'[t - tap];
      }
    }
    assert Taps(k, h, delta, t, c, k.taps) == Taps(k, h', delta', t, c, k.taps);
  }

  lemma SameBlock(t: nat, tap: nat, n: nat)
    requires n >= 1 && tap <= t % n
    ensures tap <= t && (t - tap) / n == t / n
  {
    RemainderBelow(t, n);
    DivModUnique(t - tap, n, t / n, t % n - tap);
  }

  lemma ConvAtScales(k: Kernel, h: Tensor, delta: seq<Tensor>, f: real, t: nat, c: nat, taps: nat)
    requires Fits(k, h, delta) && Fits(k, ScaleAll(f, h), delta)
    requires t < |h| && c < k.width && taps <= k.taps
    ensures ConvAt(k, ScaleAll(f, h), delta, t, c, taps) == f * ConvAt(k, h, delta, t, c, taps)
  {
    TapsScale(k, h, delta, f, t, c, taps);
    TotalScales(f, Taps(k, h, delta, t, c, taps), Taps(k, ScaleAll(f, h), delta, t, c, taps));
  }

  lemma TapsScale(k: Kernel, h: Tensor, delta: seq<Tensor>, f: real, t: nat, c: nat, taps: nat)
    requires Fits(k, h, delta) && Fits(k, ScaleAll(f, h), delta)
    requires t < |h| && c < k.width && taps <= k.taps
    ensures ScaledBy(f, Taps(k, h, delta, t, c, taps), Taps(k, ScaleAll(f, h), delta, t, c, taps))
  {
    var v, w := Taps(k, h, delta, t, c, taps), Taps(k, ScaleAll(f, h), delta, t, c, taps);
    forall tap | 0 <= tap < taps ensures ScaledAt(f, v, w, tap) {
      TapScales(k, h, delta, f, t, c, tap);
    }
  }

  lemma TapScales(k: Kernel, h: Tensor, delta: seq<Tensor>, f: real, t: nat, c: nat, tap: nat)
    requires Fits(k, h, delta) && Fits(k, ScaleAll(f, h), delta)
    requires t < |h| && c < k.width && tap < k.taps
    ensures TapAt(k, ScaleAll(f, h), delta, t, c, tap) == f * TapAt(k, h, delta, t, c, tap)
  {
    RemainderBelow(t, k.blockSize);
    if tap <= t % k.blockSize {
      Distribute(f, Coefficient(k, delta[t], tap, c), h[t - tap][c], 0.0);
    }
  }

  /** One factor on all rows comes out of the convolution unchanged. */
  lemma ConvScales(k: Kernel, h: Tensor, delta: seq<Tensor>, f: real)
    requires Fits(k, h, delta)
    ensures Fits(k, ScaleAll(f, h), delta)
    ensures Conv(k, ScaleAll(f, h), delta) == ScaleAll(f, Conv(k, h, delta))
  {
    var x, y := Conv(k, ScaleAll(f, h), delta), ScaleAll(f, Conv(k, h, delta));
    forall t, c | 0 <= t < |h| && 0 <= c < k.width ensures x[t][c] == y[t][c] {
      ConvEntryScales(k, h, delta, f, t, c);
    }
    SameRows(x, y, |h|, k.width);
  }

  lemma ConvEntryScales(k: Kernel, h: Tensor, delta: seq<Tensor>, f: real, t: nat, c: nat)
    requires Fits(k, h, delta) && Fits(k, ScaleAll(f, h), delta) && t < |h| && c < k.width
    ensures Conv(k, ScaleAll(f, h), delta)[t][c] == ScaleAll(f, Conv(k, h, delta))[t][c]
  {
    ConvAtScales(k, h, delta, f, t, c, k.taps);
    assert ScaleAll(f, Conv(k, h, delta))[t] == Scale(f, Conv(k, h, delta)[t]);
  }

  /** A factor for each row does not: with factors 1 and 2 on the rows of one block, scaling first
      differs from scaling last. The rows' divisors must be undone before this convolution. */
  lemma RowFactorsDoNotPass()
    ensures exists k, h, h', delta ::
              && Fits(k, h, delta) && Fits(k, h', delta)
              && |h| == 2 && h' == [h[0], Scale(2.0, h[1])]
              && Conv(k, h', delta)[1] != Scale(2.0, Conv(k, h, delta)[1])
  {
    var k := Kernel([[1.0], [1.0]], 1, 1, 1, 2, 2);
    var delta := [[[0.0], [0.0]], [[0.0], [0.0]]];
    var h, h' := [[1.0], [1.0]], [[1.0], [2.0]];
    assert Fits(k, h, delta) && Fits(k, h', delta);
    assert GroupOf(0, 1, 1) == 0;
    assert Taps(k, h, delta, 1, 0, 2) == [1.0, 1.0] && Taps(k, h', delta, 1, 0, 2) == [2.0, 1.0];
    TotalOfTwo(1.0, 1.0);
    TotalOfTwo(2.0, 1.0);
    assert Scale(2.0, h[1]) == [2.0];
    assert Conv(k, h', delta)[1][0] != Scale(2.0, Conv(k, h, delta)[1])[0];
  }
}
