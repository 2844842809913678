/** Rounding binary32 to bfloat16 with an addition and a mask on the bit pattern, against the rule of
    section 4.3.1 of IEEE 754-2019 (round to nearest, ties to even). */
module Bf16 {
  import opened Arithmetic

  const TWO_16: nat := 0x1_0000
  const TWO_23: nat := 0x80_0000
  const TWO_31: nat := 0x8000_0000
  const TWO_32: nat := 0x1_0000_0000
  const INFINITY: nat := 0x7F80_0000

  type Bits = b: nat | b < TWO_32

  /** The trick: add 0x7FFF plus the lowest surviving bit, wrapping at 32 bits, and clear the low half. */
  function RoundBits(bits: Bits): Bits {
    var sum := (bits + 0x7FFF + (bits / TWO_16) % 2) % TWO_32;
    sum / TWO_16 * TWO_16
  }

  function Negative(bits: Bits): bool { bits >= TWO_31 }

  function Magnitude(bits: Bits): nat { bits % TWO_31 }

  predicate IsNaN(bits: Bits) { Magnitude(bits) > INFINITY }

  predicate IsBf16(bits: Bits) { bits % TWO_16 == 0 }

  /** The absolute value of a magnitude's bit pattern, in units of 2^-149. The pattern of infinity
      counts as 2^128, the value the overflow rule compares with. */
  function Units(m: nat): nat {
    var exponent, fraction := m / TWO_23, m % TWO_23;
    if exponent == 0 then fraction else (TWO_23 + fraction) * Pow2(exponent - 1)
  }

  function Value(bits: Bits): int {
    Signed(Negative(bits), Units(Magnitude(bits)))
  }

  function Signed(negative: bool, units: int): int { if negative then -units else units }

  function Distance(a: int, b: int): nat { if a < b then b - a else a - b }

  /** The spacing of binary32 values between the bfloat16 magnitudes u and u + 1. */
  function Spacing(u: nat): (s: nat)
    ensures s > 0
  {
    if u / 128 == 0 then 1 else Pow2(u / 128 - 1)
  }

  // ------------------------------------------------------------------------------------------
  // Values between two neighbouring bfloat16 magnitudes
  // ------------------------------------------------------------------------------------------

  lemma SplitMagnitude(u: nat, t: nat)
    requires t < TWO_16
    ensures (u * TWO_16 + t) / TWO_23 == u / 128
    ensures (u * TWO_16 + t) % TWO_23 == u % 128 * TWO_16 + t
  {
  }

  /** From one bfloat16 magnitude to the next one, the value grows by equal steps, also where the
      exponent changes at the upper end. */
  lemma ValuesAreLinear(u: nat, t: nat)
    requires t <= TWO_16
    ensures Units(u * TWO_16 + t) == Units(u * TWO_16) + t * Spacing(u)
  {
    var e, f, s := u / 128, u % 128, Spacing(u);
    SplitMagnitude(u, 0);
    if t < TWO_16 {
      SplitMagnitude(u, t);
      if e > 0 {
        assert (TWO_23 + f * TWO_16 + t) * s == (TWO_23 + f * TWO_16) * s + t * s;
      }
    } else {
      assert u * TWO_16 + t == (u + 1) * TWO_16;
      SplitMagnitude(u + 1, 0);
      if f < 127 {
        DivModUnique(u + 1, 128, e, f + 1);
        if e > 0 {
          assert (TWO_23 + (f + 1) * TWO_16) * s == (TWO_23 + f * TWO_16) * s + TWO_16 * s;
        }
      } else {
        DivModUnique(u + 1, 128, e + 1, 0);
        if e > 0 {
          assert Pow2(e) == 2 * s;
          assert (TWO_23 + 127 * TWO_16) * s + TWO_16 * s == TWO_23 * (2 * s);
        }
      }
    }
  }

  lemma {:induction false} Bf16Ordered(u: nat, v: nat)
    requires u <= v
    ensures Units(u * TWO_16) <= Units(v * TWO_16)
    ensures u < v ==> Units(u * TWO_16) < Units(v * TWO_16)
    decreases v
  {
    if u < v {
      Bf16Ordered(u, v - 1);
      ValuesAreLinear(v - 1, TWO_16);
      assert (v - 1) * TWO_16 + TWO_16 == v * TWO_16;
    }
  }

  /** Strictly between two neighbouring bfloat16 magnitudes, values grow with the lower half. */
  lemma UnitsBetween(u: nat, t: nat, w: nat)
    requires t < w <= TWO_16
    ensures Units(u * TWO_16 + t) < Units(u * TWO_16 + w)
  {
    ValuesAreLinear(u, t);
    ValuesAreLinear(u, w);
    MulAtLeast(w - t, Spacing(u));
    assert w * Spacing(u) == t * Spacing(u) + (w - t) * Spacing(u);
  }

  /** Magnitudes compare as their values do. */
  lemma UnitsMonotone(m: nat, n: nat)
    requires m < n
    ensures Units(m) < Units(n)
  {
    var u, t, v, w := m / TWO_16, m % TWO_16, n / TWO_16, n % TWO_16;
    if u == v {
      UnitsBetween(u, t, w);
    } else {
      UnitsBetween(u, t, TWO_16);
      Bf16Ordered(u + 1, v);
      if w > 0 { UnitsBetween(v, 0, w); }
      ChainAcross(Units(m), Units((u + 1) * TWO_16), Units(v * TWO_16), Units(n));
    }
  }

  lemma ChainAcross(a: int, b: int, c: int, d: int)
    requires a < b <= c <= d
    ensures a < d
  {
  }

  // ------------------------------------------------------------------------------------------
  // The rounding itself
  // ------------------------------------------------------------------------------------------

  /** The rounding decision in terms of the upper half u and the lower half t of a magnitude. */
  function RoundedHalf(u: nat, t: nat): nat {
    if t > 0x8000 || (t == 0x8000 && u % 2 == 1) then u + 1 else u
  }

  /** The addition carries into the upper half exactly when the rounding rule goes up, never wraps
      for a number, and leaves the sign alone. */
  lemma RoundingDecides(bits: Bits)
    requires !IsNaN(bits)
    ensures bits + 0x7FFF + (bits / TWO_16) % 2 < TWO_32
    ensures Negative(RoundBits(bits)) == Negative(bits)
    ensures var m := Magnitude(bits);
            var h := RoundedHalf(m / TWO_16, m % TWO_16);
            Magnitude(RoundBits(bits)) == h * TWO_16 <= INFINITY && RoundBits(bits) / TWO_16 % 2 == h % 2
  {
    var s, u, t := Split(bits);
    RoundedParts(s, u, t);
    assert u <= 0x7F80 && (u == 0x7F80 ==> t == 0);
    SignAndHalf(s, RoundedHalf(u, t));
  }

  /** A bit pattern is its sign bit, the upper half of its magnitude and its lower half. */
  lemma Split(bits: Bits) returns (s: nat, u: nat, t: nat)
    ensures s == (if Negative(bits) then 0x8000 else 0) && u == Magnitude(bits) / TWO_16 < 0x8000
    ensures t == Magnitude(bits) % TWO_16 && bits == (s + u) * TWO_16 + t
    ensures bits / TWO_16 == s + u && (s + u) % 2 == u % 2
  {
    s, u, t := if Negative(bits) then 0x8000 else 0, Magnitude(bits) / TWO_16, Magnitude(bits) % TWO_16;
    DivModUnique(bits, TWO_16, s + u, t);
  }

  /** What the trick makes of the three parts; only the pattern of a NaN can wrap. */
  lemma RoundedParts(s: nat, u: nat, t: nat)
    requires (s == 0 || s == 0x8000) && u < 0x8000 && t < TWO_16
    requires (s + u) * TWO_16 + t < TWO_32
    ensures ((s + u) * TWO_16 + t) / TWO_16 == s + u
    ensures var h := s + RoundedHalf(u, t);
            RoundBits((s + u) * TWO_16 + t) == if h < TWO_16 then h * TWO_16 else 0
  {
    var bits := (s + u) * TWO_16 + t;
    DivModUnique(bits, TWO_16, s + u, t);
    UpperHalf(s, u, t);
    var h := s + RoundedHalf(u, t);
    var sum := bits + 0x7FFF + u % 2;
    if h == TWO_16 {
      DivModUnique(sum, TWO_32, 1, sum - TWO_32);
    }
  }

  lemma SignAndHalf(s: nat, h: nat)
    requires (s == 0 || s == 0x8000) && h <= 0x7F80
    ensures Negative((s + h) * TWO_16) <==> s != 0
    ensures Magnitude((s + h) * TWO_16) == h * TWO_16
    ensures (s + h) * TWO_16 / TWO_16 % 2 == h % 2
  {
    DivModUnique((s + h) * TWO_16, TWO_16, s + h, 0);
  }

  lemma UpperHalf(s: nat, u: nat, t: nat)
    requires s % 2 == 0 && t < TWO_16
    ensures (s + u) % 2 == u % 2
    ensures ((s + u) * TWO_16 + t + 0x7FFF + u % 2) / TWO_16 == s + RoundedHalf(u, t)
  {
    var h := RoundedHalf(u, t);
    DivModUnique((s + u) * TWO_16 + t + 0x7FFF + u % 2, TWO_16, s + h, t + 0x7FFF + u % 2 - (h - u) * TWO_16);
  }

  /** bits, or something of the same value, is the bfloat16 number nearest to x, and among two
      equally near ones the one whose last bit is zero. */
  ghost predicate NearestEven(bits: Bits, x: int) {
    && IsBf16(bits) && !IsNaN(bits)
    && forall c: Bits | IsBf16(c) && !IsNaN(c) && Value(c) != Value(bits) ::
         && Distance(Value(bits), x) <= Distance(Value(c), x)
         && (Distance(Value(bits), x) == Distance(Value(c), x) ==> bits / TWO_16 % 2 == 0)
  }

  /** On the line from lo to hi = lo + 2^16 s, the point x = lo + t s lies nearest to the end the
      decision picks, compared with any point outside the open interval. */
  lemma NearestEnd(lo: int, hi: int, s: nat, u: nat, t: nat, x: int, other: int)
    requires s > 0 && t < TWO_16 && x == lo + t * s && hi == lo + TWO_16 * s
    requires other <= lo || hi <= other
    ensures var up := RoundedHalf(u, t) == u + 1;
            var near := if up then hi else lo;
            && Distance(near, x) <= Distance(other, x)
            && (Distance(near, x) == Distance(other, x) && other != near ==> RoundedHalf(u, t) % 2 == 0)
  {
  }

  /** Among the magnitudes, the decision is the nearest one with ties to even. */
  lemma DecisionIsNearest(m: nat, c: nat)
    requires m <= INFINITY && c <= INFINITY && c % TWO_16 == 0
    ensures var h := RoundedHalf(m / TWO_16, m % TWO_16);
            var near, x, other := Units(h * TWO_16), Units(m), Units(c);
            && Distance(near, x) <= Distance(other, x)
            && (Distance(near, x) == Distance(other, x) && other != near ==> h % 2 == 0)
  {
    var u, t, v := m / TWO_16, m % TWO_16, c / TWO_16;
    ValuesAreLinear(u, t);
    ValuesAreLinear(u, TWO_16);
    if v <= u { Bf16Ordered(v, u); } else { Bf16Ordered(u + 1, v); }
    NearestEnd(Units(u * TWO_16), Units((u + 1) * TWO_16), Spacing(u), u, t, Units(m), Units(c));
  }

  /** For every number, the trick computes the nearest bfloat16 value, with ties to even. */
  lemma RoundsToNearestEven(bits: Bits)
    requires !IsNaN(bits)
    ensures NearestEven(RoundBits(bits), Value(bits))
  {
    RoundingDecides(bits);
    RoundingIdempotent(bits);
    NearestFrom(bits, RoundBits(bits));
  }

  lemma NearestFrom(bits: Bits, r: Bits)
    requires !IsNaN(bits) && IsBf16(r) && !IsNaN(r) && Negative(r) == Negative(bits)
    requires var m := Magnitude(bits);
             var h := RoundedHalf(m / TWO_16, m % TWO_16);
             Magnitude(r) == h * TWO_16 && r / TWO_16 % 2 == h % 2
    ensures NearestEven(r, Value(bits))
  {
    forall c: Bits | IsBf16(c) && !IsNaN(c) && Value(c) != Value(r)
      ensures Distance(Value(r), Value(bits)) <= Distance(Value(c), Value(bits))
      ensures Distance(Value(r), Value(bits)) == Distance(Value(c), Value(bits)) ==> r / TWO_16 % 2 == 0
    {
      BeatsCandidate(bits, r, c);
    }
  }

  lemma ZeroUnits()
    ensures Units(0) == 0
  {
  }

  lemma BeatsCandidate(bits: Bits, r: Bits, c: Bits)
    requires !IsNaN(bits) && IsBf16(c) && !IsNaN(c) && Value(c) != Value(r)
    requires Negative(r) == Negative(bits)
    requires var m := Magnitude(bits);
             var h := RoundedHalf(m / TWO_16, m % TWO_16);
             Magnitude(r) == h * TWO_16 && r / TWO_16 % 2 == h % 2
    ensures Distance(Value(r), Value(bits)) <= Distance(Value(c), Value(bits))
    ensures Distance(Value(r), Value(bits)) == Distance(Value(c), Value(bits)) ==> r / TWO_16 % 2 == 0
  {
    BeatsMagnitude(Negative(bits), Magnitude(bits), Negative(c), Magnitude(c));
  }

  lemma BeatsMagnitude(negative: bool, m: nat, otherNegative: bool, c: nat)
    requires m <= INFINITY && c <= INFINITY && c % TWO_16 == 0
    ensures var h := RoundedHalf(m / TWO_16, m % TWO_16);
            var near, x := Signed(negative, Units(h * TWO_16)), Signed(negative, Units(m));
            var other := Signed(otherNegative, Units(c));
            other != near ==>
              && Distance(near, x) <= Distance(other, x)
              && (Distance(near, x) == Distance(other, x) ==> h % 2 == 0)
  {
    var h := RoundedHalf(m / TWO_16, m % TWO_16);
    DecisionIsNearest(m, c);
    DecisionIsNearest(m, 0);
    ZeroUnits();
    // A candidate of the other sign is no nearer than zero.
    if Signed(otherNegative, Units(c)) != Signed(negative, Units(h * TWO_16)) {
      SignedDistance(negative, otherNegative, Units(h * TWO_16), Units(m), Units(c), h % 2 == 0);
    }
  }

  lemma SignedDistance(negative: bool, otherNegative: bool, near: nat, x: nat, other: nat, even: bool)
    requires Distance(near, x) <= Distance(other, x)
    requires Distance(near, x) == Distance(other, x) && other != near ==> even
    requires Distance(near, x) <= Distance(0, x)
    requires Distance(near, x) == Distance(0, x) && near != 0 ==> even
    requires Signed(otherNegative, other) != Signed(negative, near)
    ensures var a, b, c := Signed(negative, near), Signed(negative, x), Signed(otherNegative, other);
            Distance(a, b) <= Distance(c, b) && (Distance(a, b) == Distance(c, b) ==> even)
  {
  }

  /** Overflow to infinity happens exactly at and above the midpoint between the largest finite
      bfloat16 value and 2^128; infinities stay. */
  lemma OverflowsAtMidpoint(bits: Bits)
    requires !IsNaN(bits)
    ensures Magnitude(RoundBits(bits)) == INFINITY
            <==> 2 * Units(Magnitude(bits)) >= Units(0x7F7F_0000) + Units(INFINITY)
  {
    RoundingDecides(bits);
    MidpointOfOverflow();
    var m := Magnitude(bits);
    HalfAtMidpoint(m);
    if m > 0x7F7F_8000 {
      UnitsMonotone(0x7F7F_8000, m);
    } else if m < 0x7F7F_8000 {
      UnitsMonotone(m, 0x7F7F_8000);
    }
  }

  lemma HalfAtMidpoint(m: nat)
    requires m <= INFINITY
    ensures RoundedHalf(m / TWO_16, m % TWO_16) * TWO_16 == INFINITY <==> m >= 0x7F7F_8000
  {
  }

  lemma MidpointOfOverflow()
    ensures 2 * Units(0x7F7F_8000) == Units(0x7F7F_0000) + Units(INFINITY)
  {
  }

  lemma RoundingMonotone(a: Bits, b: Bits)
    requires !IsNaN(a) && !IsNaN(b) && Value(a) <= Value(b)
    ensures Value(RoundBits(a)) <= Value(RoundBits(b))
  {
    RoundingDecides(a);
    RoundingDecides(b);
    var m, n := Magnitude(a), Magnitude(b);
    var h, k := RoundedHalf(m / TWO_16, m % TWO_16), RoundedHalf(n / TWO_16, n % TWO_16);
    if !Negative(a) && !Negative(b) {
      if m > n { UnitsMonotone(n, m); }
      Bf16Ordered(h, k);
    } else if Negative(a) && Negative(b) {
      if m < n { UnitsMonotone(m, n); }
      Bf16Ordered(k, h);
    } else if !Negative(a) && Negative(b) {
      if m > 0 { UnitsMonotone(0, m); }
      if n > 0 { UnitsMonotone(0, n); }
    }
  }

  lemma RoundingIdempotent(bits: Bits)
    ensures IsBf16(RoundBits(bits))
    ensures IsBf16(bits) ==> RoundBits(bits) == bits
    ensures RoundBits(RoundBits(bits)) == RoundBits(bits)
  {
    var s, u, t := Split(bits);
    RoundedParts(s, u, t);
    Bf16Fixed(RoundBits(bits));
    if IsBf16(bits) { Bf16Fixed(bits); }
  }

  lemma Bf16Fixed(bits: Bits)
    requires IsBf16(bits)
    ensures RoundBits(bits) == bits
  {
    var s, u, t := Split(bits);
    DivModUnique(bits, TWO_16, bits / TWO_16, 0);
    assert t == 0;
    RoundedParts(s, u, 0);
  }

  /** Not a number stays not a number if and only if its magnitude lies strictly above the tie with
      infinity and below the carry into the sign; below, it becomes an infinity, above, a zero. */
  lemma NaNSurvivesIff(bits: Bits)
    requires IsNaN(bits)
    ensures IsNaN(RoundBits(bits)) <==> 0x7F80_8000 < Magnitude(bits) < 0x7FFF_8000
    ensures Magnitude(bits) <= 0x7F80_8000 ==> Magnitude(RoundBits(bits)) == INFINITY
    ensures Magnitude(bits) >= 0x7FFF_8000 ==>
              Magnitude(RoundBits(bits)) == 0 && Negative(RoundBits(bits)) != Negative(bits)
  {
    var s, u, t := Split(bits);
    RoundedParts(s, u, t);
    var h := RoundedHalf(u, t);
    assert u >= 0x7F80;
    if h < 0x8000 {
      NaNMagnitude(s, h);
    }
  }

  lemma NaNMagnitude(s: nat, h: nat)
    requires (s == 0 || s == 0x8000) && h < 0x8000
    ensures Magnitude((s + h) * TWO_16) == h * TWO_16 && (Negative((s + h) * TWO_16) <==> s != 0)
  {
  }
}
