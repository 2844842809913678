/** Rows of real numbers, linear projections of them, and how these commute with scaling. */
module Tensors {

  type Vec = seq<real>
  type Tensor = seq<Vec>

  predicate Shaped(x: Tensor, rows: nat, width: nat) {
    |x| == rows && forall t | 0 <= t < rows :: |x[t]| == width
  }

  function Dot(a: Vec, b: Vec): real
    requires |a| == |b|
  {
    if |a| == 0 then 0.0 else a[0] * b[0] + Dot(a[1..], b[1..])
  }

  function Total(v: Vec): real {
    if |v| == 0 then 0.0 else Total(v[..|v| - 1]) + v[|v| - 1]
  }

  /** w is v times f, entry by entry. */
  ghost predicate ScaledBy(f: real, v: Vec, w: Vec) {
    |w| == |v| && forall i | 0 <= i < |v| :: ScaledAt(f, v, w, i)
  }

  predicate ScaledAt(f: real, v: Vec, w: Vec, i: nat)
    requires i < |v| == |w|
  {
    w[i] == f * v[i]
  }

  lemma {:induction false} TotalScales(f: real, v: Vec, w: Vec)
    requires ScaledBy(f, v, w)
    ensures Total(w) == f * Total(v)
    decreases |v|
  {
    if |v| > 0 {
      var n := |v| - 1;
      forall i | 0 <= i < n ensures ScaledAt(f, v[..n], w[..n], i) {
        assert ScaledAt(f, v, w, i);
      }
      TotalScales(f, v[..n], w[..n]);
      assert ScaledAt(f, v, w, n);
      Spread(f, Total(v[..n]), v[n]);
    }
  }

  lemma TotalOfOne(x: real)
    ensures Total([x]) == x
  {
  }

  lemma TotalOfTwo(x: real, y: real)
    ensures Total([x, y]) == x + y
  {
    TotalOfOne(x);
    assert [x, y][..1] == [x];
  }

  /** A projection without bias. */
  function Linear(w: Tensor, v: Vec): (r: Vec)
    requires Shaped(w, |w|, |v|)
    ensures |r| == |w| && forall i | 0 <= i < |w| :: r[i] == Dot(w[i], v)
  {
    seq(|w|, i requires 0 <= i < |w| => Dot(w[i], v))
  }

  function Scale(c: real, v: Vec): (r: Vec)
    ensures |r| == |v| && forall i | 0 <= i < |v| :: r[i] == c * v[i]
  {
    seq(|v|, i requires 0 <= i < |v| => c * v[i])
  }

  function ScaleAll(c: real, x: Tensor): (r: Tensor)
    ensures |r| == |x| && forall t | 0 <= t < |x| :: r[t] == Scale(c, x[t])
  {
    seq(|x|, t requires 0 <= t < |x| => Scale(c, x[t]))
  }

  lemma {:induction false} DotScale(a: Vec, c: real, b: Vec)
    requires |a| == |b|
    ensures Dot(a, Scale(c, b)) == c * Dot(a, b)
    decreases |a|
  {
    if |a| > 0 {
      ScaleTail(c, b);
      DotScale(a[1..], c, b[1..]);
      Distribute(c, a[0], b[0], Dot(a[1..], b[1..]));
    }
  }

  lemma ScaleTail(c: real, v: Vec)
    requires |v| > 0
    ensures Scale(c, v)[1..] == Scale(c, v[1..])
  {
    forall i | 0 <= i < |v| - 1 ensures Scale(c, v)[1..][i] == Scale(c, v[1..])[i] {
      assert Scale(c, v)[i + 1] == c * v[i + 1];
      assert Scale(c, v[1..])[i] == c * v[1..][i];
    }
  }

  function Add(a: Vec, b: Vec): (r: Vec)
    requires |a| == |b|
    ensures |r| == |a| && forall i | 0 <= i < |a| :: r[i] == a[i] + b[i]
  {
    seq(|a|, i requires 0 <= i < |a| => a[i] + b[i])
  }

  /** The vector with one at place i and zero everywhere else. */
  function Unit(n: nat, i: nat): (r: Vec)
    ensures |r| == n && forall j | 0 <= j < n :: r[j] == if j == i then 1.0 else 0.0
  {
    seq(n, j => if j == i then 1.0 else 0.0)
  }

  lemma {:induction false} DotAdds(a: Vec, b: Vec, c: Vec)
    requires |a| == |b| == |c|
    ensures Dot(a, Add(b, c)) == Dot(a, b) + Dot(a, c)
    decreases |a|
  {
    if |a| > 0 {
      assert Add(b, c)[1..] == Add(b[1..], c[1..]);
      DotAdds(a[1..], b[1..], c[1..]);
      Spread(a[0], b[0], c[0]);
    }
  }

  /** With scaling and addition this is all that a dot product is: it takes a unit vector to an entry. */
  lemma {:induction false} DotOfUnit(a: Vec, i: nat)
    ensures Dot(a, Unit(|a|, i)) == if i < |a| then a[i] else 0.0
    decreases |a|
  {
    if |a| > 0 {
      var next := if i > 0 then i - 1 else |a|;
      assert Unit(|a|, i)[1..] == Unit(|a| - 1, next);
      DotOfUnit(a[1..], next);
    }
  }

  lemma Distribute(c: real, x: real, y: real, rest: real)
    ensures x * (c * y) + c * rest == c * (x * y + rest)
  {
  }

  lemma Spread(c: real, x: real, y: real)
    ensures c * (x + y) == c * x + c * y
  {
  }

  lemma LinearScale(w: Tensor, c: real, v: Vec)
    requires Shaped(w, |w|, |v|)
    ensures Linear(w, Scale(c, v)) == Scale(c, Linear(w, v))
  {
    forall i | 0 <= i < |w| ensures Linear(w, Scale(c, v))[i] == Scale(c, Linear(w, v))[i] {
      DotScale(w[i], c, v);
    }
  }

  /** Two factors multiply. */
  lemma ScaleTwice(a: real, b: real, product: real, v: Vec)
    requires a * b == product
    ensures Scale(a, Scale(b, v)) == Scale(product, v)
  {
    forall i | 0 <= i < |v| ensures Scale(a, Scale(b, v))[i] == Scale(product, v)[i] {
      Associate(a, b, v[i]);
    }
  }

  lemma Associate(a: real, b: real, x: real)
    ensures a * (b * x) == (a * b) * x
  {
  }

  lemma ScaleByOne(v: Vec)
    ensures Scale(1.0, v) == v
  {
  }

  /** Dividing and multiplying by the same number cancels. */
  lemma ScaleBack(c: real, v: Vec)
    requires c != 0.0
    ensures Scale(c, Scale(1.0 / c, v)) == v
  {
    assert c * (1.0 / c) == 1.0;
    ScaleTwice(c, 1.0 / c, 1.0, v);
    ScaleByOne(v);
  }

  /** Factors before and after a projection multiply. */
  lemma ScaleAround(w: Tensor, v: Vec, before: real, after: real, product: real)
    requires Shaped(w, |w|, |v|) && after * before == product
    ensures Scale(after, Linear(w, Scale(before, v))) == Scale(product, Linear(w, v))
  {
    LinearScale(w, before, v);
    ScaleTwice(after, before, product, Linear(w, v));
  }
}
