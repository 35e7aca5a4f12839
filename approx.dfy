/** The floating-point pieces of the scores, kept abstract. The scores are
    computed over the reals; Python's math.tanh and round(x, n) enter as
    parameters constrained only by the properties the proofs rely on. */
module Approx {
  import opened Basics

  /** A stand-in for math.tanh: non-decreasing, between -1 and 1, and zero
      at zero. The bounds are closed: in double precision math.tanh(x) is
      exactly 1.0 once x exceeds about 19.1, and -1.0 below about -19.1. */
  ghost predicate IsSaturating(f: real -> real) {
    && (forall x, y :: x <= y ==> f(x) <= f(y))
    && (forall x :: -1.0 <= f(x) <= 1.0)
    && f(0.0) == 0.0
  }

  /** A stand-in for Python's round(x, n): non-decreasing in x for every n,
      and exact on every value that already has at most n decimals. */
  ghost predicate IsRounding(round: (real, nat) -> real) {
    && (forall x, y, n: nat :: x <= y ==> round(x, n) <= round(y, n))
    && (forall k: int, n: nat :: round(Decimal(k, n), n) == Decimal(k, n))
  }

  /** A rounding keeps a value of [0, 100] inside [0, 100]. */
  lemma RoundingKeepsPercentRange(round: (real, nat) -> real, x: real, n: nat)
    requires IsRounding(round)
    requires 0.0 <= x <= 100.0
    ensures 0.0 <= round(x, n) <= 100.0
  {
    var lo, hi := 0 * Pow10(n), 100 * Pow10(n);
    DecimalOfWhole(0, n);
    DecimalOfWhole(100, n);
    assert round(Decimal(lo, n), n) == 0.0;
    assert round(Decimal(hi, n), n) == 100.0;
    assert round(Decimal(lo, n), n) <= round(x, n);
    assert round(x, n) <= round(Decimal(hi, n), n);
  }

  /** The whole number c written with n decimals. */
  lemma DecimalOfWhole(c: int, n: nat)
    ensures Decimal(c * Pow10(n), n) == c as real
  {
    var p := Pow10(n) as real;
    assert (c * Pow10(n)) as real == c as real * p;
  }
}
