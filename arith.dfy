/** Small facts of integer and real arithmetic. Each is stated over plain variables and
    proved in a context of its own: nonlinear real arithmetic, integer-to-real conversion
    and the floor function are never mixed in one proof obligation. */
module Arith {

  /** Multiplying by a positive integer preserves and reflects order. */
  lemma IntMulOrder(x: int, y: int, m: int)
    requires m > 0
    ensures x < y <==> x * m < y * m
    ensures x <= y <==> x * m <= y * m
  {
  }

  /** Integer division with a positive divisor splits i into whole multiples and a remainder. */
  lemma DivMod(i: int, m: int)
    requires m > 0
    ensures i == (i / m) * m + i % m
    ensures 0 <= i % m < m
  {
  }

  /** Converting an integer product to a real gives the product of the conversions. */
  lemma CastProduct(q: int, m: int)
    ensures ((q * m) as real) == (q as real) * (m as real)
  {
  }

  /** Multiplying by a positive real preserves and reflects order. */
  lemma RealMulOrder(x: real, y: real, l: real)
    requires l > 0.0
    ensures x < y <==> x * l < y * l
    ensures x <= y <==> x * l <= y * l
  {
  }

  /** The floor of a whole number plus a fraction in [0, 1) is that whole number. */
  lemma FloorOfWholePlusFraction(q: int, f: real)
    requires 0.0 <= f < 1.0
    ensures ((q as real) + f).Floor == q
  {
  }

  /** Dividing a whole multiple of a plus a remainder in [0, a) by a. */
  lemma DivideWholePlusRemainder(q: real, a: real, t: real)
    requires a > 0.0 && 0.0 <= t < a
    ensures (q * a + t) / a == q + t / a
    ensures 0.0 <= t / a < 1.0
  {
  }

  /** A lower bound on a quotient by a positive real bounds the dividend. */
  lemma LowerFromQuotient(s: real, l: real, k: real)
    requires l > 0.0 && k <= s / l
    ensures l * k <= s
  {
  }

  /** An upper bound on a quotient by a positive real bounds the dividend. */
  lemma UpperFromQuotient(s: real, l: real, k: real)
    requires l > 0.0 && s / l < k + 1.0
    ensures s - l * k < l
  {
    RealMulOrder(s / l, k + 1.0, l);
    assert (s / l) * l == s;
    assert (k + 1.0) * l == l * k + 1.0 * l;
  }

  /** Removing k whole multiples of l from s removes exactly k from the quotient. */
  lemma RemovedMultiple(s: real, l: real, k: real)
    requires l > 0.0
    ensures (s - (s - l * k)) / l == k
  {
  }

  /** Adding one more copy of c. */
  lemma AddOneFactor(c: real, k: real)
    ensures c * k + c == c * (k + 1.0)
  {
  }

  /** Membership of the half-open interval [lo, hi). It restates `lo <= i < hi` and is used
      only as the trigger term of set comprehensions over that range: the explicit bounds
      still give Dafny the finiteness of the set, and this call gives the verifier a term to
      instantiate its quantifiers on. */
  predicate InInterval(lo: int, hi: int, i: int) {
    lo <= i < hi
  }

  /** The integers in [lo, hi) number hi - lo (`InInterval` only supplies the trigger). */
  lemma {:induction false} IntervalSize(lo: int, hi: int)
    requires lo <= hi
    ensures |set i: int | lo <= i < hi && InInterval(lo, hi, i)| == hi - lo
    decreases hi - lo
  {
    var all := set i: int | lo <= i < hi && InInterval(lo, hi, i);
    if lo < hi {
      var top := hi - 1;
      var below := set i: int | lo <= i < top && InInterval(lo, top, i);
      IntervalSize(lo, top);
      assert all == below + {top};
    } else {
      assert all == {};
    }
  }
}
