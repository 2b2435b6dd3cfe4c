/** The rounding of the interpreter's arithmetic (crates/core/src/interpreter/eval/expr.rs) is that of double-precision
    numbers: to the nearest one, and of two equally near ones to the one whose last bit is zero. */
module Rounding {
  import opened UbelSyntax
  import opened InterpOps

  /** An integer that is a double: at most 53 bits, times a power of two. */
  ghost predicate IsDouble(m: int) {
    exists k: int, e: nat :: Significand(m, k, e)
  }

  ghost predicate Significand(m: int, k: int, e: nat) {
    -EXACT <= k <= EXACT && m == k * Pow2(e)
  }

  /** The last of the 53 bits is zero. */
  ghost predicate LastBitZero(m: int) {
    exists k: int, e: nat :: Significand(m, k, e) && Distance(0, k) >= EXACT / 2 && k % 2 == 0
  }

  function Distance(n: int, m: int): int {
    if n < m then m - n else n - m
  }

  /** No double is nearer to `n` than what it is rounded to, and one that is as near has an odd last bit. */
  lemma DoubleIsNearest(n: int, m: int)
    requires IsDouble(m)
    ensures IsDouble(Double(n)) && Distance(n, Double(n)) <= Distance(n, m)
    ensures Distance(n, Double(n)) == Distance(n, m) && m != Double(n) ==> LastBitZero(Double(n))
  {
    var k, e: nat :| Significand(m, k, e);
    if n >= 0 {
      RoundsToNearest(n, m, k, e);
    } else {
      Negative(m, k, e);
      RoundsToNearest(-n, -m, -k, e);
      hide Nearest, Scale;
      var d := Nearest(-n, Unit(-n));
      var k', e': nat :| Significand(d, k', e');
      Negative(d, k', e');
      if LastBitZero(d) {
        var i, j: nat :| Significand(d, i, j) && Distance(0, i) >= EXACT / 2 && i % 2 == 0;
        Negative(d, i, j);
      }
    }
  }

  lemma Negative(m: int, k: int, e: nat)
    requires Significand(m, k, e)
    ensures Significand(-m, -k, e)
  {
  }

  lemma RoundsToNearest(n: nat, m: int, k: int, e: nat)
    requires Significand(m, k, e)
    ensures var d := Nearest(n, Unit(n));
            && IsDouble(d) && Distance(n, d) <= Distance(n, m)
            && (Distance(n, d) == Distance(n, m) && m != d ==> LastBitZero(d))
  {
    var s, u := Scale(n), Unit(n);
    var q := n / u;
    UnitBounds(n, u, q);
    NoneBetween(n, m, k, e, q);
    assert Significand(q * u, q, s) && Significand((q + 1) * u, q + 1, s);
    hide Pow2, Scale;
    assert n == q * u + n % u && (q + 1) * u == q * u + u;
  }

  /** The quotient has 53 bits at most, and that many if there is anything to round. */
  lemma UnitBounds(n: nat, u: int, q: int)
    requires u == Unit(n) && q == n / u
    ensures 0 <= q < EXACT && (Scale(n) > 0 ==> q >= EXACT / 2) && (Scale(n) == 0 ==> u == 1 && q == n)
  {
    ScaleBounds(n);
    if Scale(n) > 0 {
      hide Pow2, Scale;
      QuotientAbove(n, u, EXACT / 2);
      QuotientBelow(n, u, EXACT);
    }
  }

  lemma QuotientAbove(n: nat, u: int, k: int)
    requires u > 0 && u * k <= n
    ensures k <= n / u
  {
    if n / u < k {
      TimesMono(n / u + 1, k, u);
    }
  }

  lemma QuotientBelow(n: nat, u: int, k: int)
    requires u > 0 && n < u * k
    ensures n / u < k
  {
    if n / u >= k {
      TimesMono(k, n / u, u);
    }
  }

  /** No double lies strictly between two neighbouring multiples of the unit. */
  lemma NoneBetween(n: nat, m: int, k: int, e: nat, q: int)
    requires Significand(m, k, e) && q == n / Unit(n)
    ensures m <= q * Unit(n) || (q + 1) * Unit(n) <= m
  {
    var s, u := Scale(n), Unit(n);
    UnitBounds(n, u, q);
    hide Scale;
    if e >= s {
      var j := PowFactor(s, e);
      hide Pow2;
      Regroup(k, j, u);
      MultipleOutside(k * j, q, u);
    } else {
      var j := PowFactor(e, s);
      BelowMultiple(k, j, Pow2(e), q);
    }
  }

  lemma MultipleOutside(k: int, q: int, u: int)
    requires u > 0
    ensures k * u <= q * u || (q + 1) * u <= k * u
  {
    if k <= q {
      TimesMono(k, q, u);
    } else {
      TimesMono(q + 1, k, u);
    }
  }

  /** A double with a smaller unit is smaller. */
  lemma BelowMultiple(k: int, j: int, p: int, q: int)
    requires p > 0 && j >= 2 && k <= EXACT && EXACT / 2 <= q
    ensures k * p <= q * (j * p)
  {
    TimesMono(k, EXACT, p);
    assert EXACT * p == EXACT / 2 * (2 * p);
    TimesMono(2, j, p);
    var u := j * p;
    Larger(EXACT / 2, 2 * p, u);
    TimesMono(EXACT / 2, q, u);
  }

  lemma Larger(h: int, a: int, b: int)
    requires h >= 0 && a <= b
    ensures h * a <= h * b
  {
  }

  lemma Regroup(k: int, j: int, u: int)
    ensures k * (j * u) == k * j * u
  {
  }
}
