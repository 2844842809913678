/** Sums of lengths and the offsets they add up to. */
module Sums {

  function Sum(s: seq<nat>): nat {
    if |s| == 0 then 0 else s[0] + Sum(s[1..])
  }

  function Repeat<T>(x: T, n: nat): (r: seq<T>)
    ensures |r| == n && forall i | 0 <= i < n :: r[i] == x
  {
    seq(n, _ => x)
  }

  /** Every element, repeated as often as its count says. */
  function RepeatInterleave<T>(xs: seq<T>, counts: seq<nat>): (r: seq<T>)
    requires |xs| == |counts|
    ensures |r| == Sum(counts)
  {
    if |xs| == 0 then [] else Repeat(xs[0], counts[0]) + RepeatInterleave(xs[1..], counts[1..])
  }

  /** A zero followed by the cumulative sums. */
  function Offsets(lens: seq<nat>): (r: seq<nat>)
    ensures |r| == |lens| + 1
    ensures forall j | 0 <= j <= |lens| :: r[j] == Sum(lens[..j])
  {
    seq(|lens| + 1, j requires 0 <= j <= |lens| => Sum(lens[..j]))
  }

  lemma SumCons(n: nat, s: seq<nat>)
    ensures Sum([n] + s) == n + Sum(s)
  {
  }

  lemma {:induction false} SumConcat(s: seq<nat>, t: seq<nat>)
    ensures Sum(s + t) == Sum(s) + Sum(t)
    decreases |s|
  {
    if |s| == 0 {
      assert s + t == t;
    } else {
      assert (s + t)[1..] == s[1..] + t;
      SumConcat(s[1..], t);
    }
  }

  lemma SumOne(n: nat)
    ensures Sum([n]) == n
  {
  }

  /** An offset grows by its length. */
  lemma OffsetStep(lens: seq<nat>, i: nat)
    requires i < |lens|
    ensures Offsets(lens)[i + 1] == Offsets(lens)[i] + lens[i]
  {
    assert lens[..i + 1] == lens[..i] + [lens[i]];
    SumConcat(lens[..i], [lens[i]]);
    SumOne(lens[i]);
  }

  lemma {:induction false} OffsetsOrdered(lens: seq<nat>, i: nat, j: nat)
    requires i <= j <= |lens|
    ensures Offsets(lens)[i] <= Offsets(lens)[j]
    decreases j - i
  {
    if i < j {
      OffsetStep(lens, i);
      OffsetsOrdered(lens, i + 1, j);
    }
  }

  lemma LastOffset(lens: seq<nat>)
    ensures Offsets(lens)[|lens|] == Sum(lens)
  {
    assert lens[..|lens|] == lens;
  }

  lemma {:induction false} SumOfRepeat(q: nat, n: nat)
    ensures Sum(Repeat(q, n)) == n * q
    decreases n
  {
    if n > 0 {
      assert Repeat(q, n)[1..] == Repeat(q, n - 1);
      SumOfRepeat(q, n - 1);
      assert n * q == (n - 1) * q + q;
    }
  }

  /** The i-th copy of the r-th element. */
  lemma {:induction false} InterleaveAt<T>(xs: seq<T>, counts: seq<nat>, r: nat, i: nat)
    requires r < |xs| == |counts| && i < counts[r]
    ensures Sum(counts[..r]) + i < Sum(counts)
    ensures RepeatInterleave(xs, counts)[Sum(counts[..r]) + i] == xs[r]
    decreases |xs|
  {
    if r == 0 {
      assert counts[..0] == [];
    } else {
      InterleaveAt(xs[1..], counts[1..], r - 1, i);
      assert counts[..r] == [counts[0]] + counts[1..][..r - 1];
      SumCons(counts[0], counts[1..][..r - 1]);
    }
  }
}
