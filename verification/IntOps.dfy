/** What the operators on 64-bit integers mean, bit by bit and by the laws of division. The language
    (crates/core/src/interpreter) and the emitted instructions (crates/llvm_poc/src/emit.rs) share these operators. */
module IntOps {
  import opened UbelSyntax

  const TWO_TO_THE_64: int := 0x1_0000_0000_0000_0000

  /** Bit `j` of an integer in two's complement; the bits of a 64-bit integer are those below 64, and the last one
      is its sign. */
  predicate BitAt(v: int, j: nat)
    decreases j
  {
    if j == 0 then v % 2 == 1 else BitAt(v / 2, j - 1)
  }

  // ---------------------------------------------------------------- sums, differences and products

  /** The sum, difference, product and negation wrap around: the one 64-bit integer that differs from the exact result
      by a multiple of 2 to the 64. */
  lemma WrapsAround(a: i64, b: i64)
    ensures var r := OperateInt(Add, a, b); r.Produces? && r.v.IntV? && (r.v.n - (a + b)) % TWO_TO_THE_64 == 0
    ensures var r := OperateInt(Sub, a, b); r.Produces? && r.v.IntV? && (r.v.n - (a - b)) % TWO_TO_THE_64 == 0
    ensures var r := OperateInt(Mul, a, b); r.Produces? && r.v.IntV? && (r.v.n - a * b) % TWO_TO_THE_64 == 0
    ensures var r := OperateUnary(Neg, IntV(a)); r.Produces? && r.v.IntV? && (r.v.n + a) % TWO_TO_THE_64 == 0
  {
    hide Wrap;
    WrapCongruent(a + b);
    WrapCongruent(a - b);
    WrapCongruent(a * b);
    WrapCongruent(0 - a);
  }

  lemma WrapCongruent(n: int)
    ensures (Wrap(n) - n) % TWO_TO_THE_64 == 0
  {
    var q, r := (n - I64_MIN) / TWO_TO_THE_64, (n - I64_MIN) % TWO_TO_THE_64;
    assert n - I64_MIN == TWO_TO_THE_64 * q + r;
    assert Wrap(n) - n == TWO_TO_THE_64 * (-q);
    Multiple(-q);
  }

  lemma Multiple(q: int)
    ensures (TWO_TO_THE_64 * q) % TWO_TO_THE_64 == 0
  {
  }

  // ---------------------------------------------------------------- division

  function Size(a: int): int {
    if a < 0 then -a else a
  }

  /** Division and remainder stop for a zero divisor and have no result in the one case that overflows. Otherwise they
      are the quotient and the remainder that has the sign of the dividend, so the quotient truncates toward zero. */
  lemma DivisionLaw(a: i64, b: i64)
    ensures OperateInt(Div, a, b).DivisionByZero? <==> b == 0
    ensures OperateInt(Rem, a, b).DivisionByZero? <==> b == 0
    ensures OperateInt(Div, a, b).Undefined? <==> a == I64_MIN && b == -1
    ensures OperateInt(Rem, a, b).Undefined? <==> a == I64_MIN && b == -1
    ensures b != 0 && !(a == I64_MIN && b == -1) ==>
              var q, r := OperateInt(Div, a, b), OperateInt(Rem, a, b);
              && q.Produces? && r.Produces? && q.v.IntV? && r.v.IntV?
              && a == b * q.v.n + r.v.n && Size(r.v.n) < Size(b)
              && (r.v.n < 0 ==> a < 0) && (r.v.n > 0 ==> a > 0)
  {
    hide TruncDiv, TruncRem, Wrap, Size;
    if b != 0 && !(a == I64_MIN && b == -1) {
      Truncated(a, b);
      QuotientFits(a, b, TruncDiv(a, b), TruncRem(a, b));
      WrapFits(TruncDiv(a, b));
      WrapFits(TruncRem(a, b));
    }
  }

  lemma WrapFits(n: int)
    ensures I64_MIN <= n <= I64_MAX ==> Wrap(n) == n
  {
  }

  lemma Truncated(a: int, b: int)
    requires b != 0
    ensures a == b * TruncDiv(a, b) + TruncRem(a, b) && Size(TruncRem(a, b)) < Size(b)
    ensures (TruncRem(a, b) < 0 ==> a < 0) && (TruncRem(a, b) > 0 ==> a > 0)
  {
    hide TruncDiv, TruncRem;
    RemainderAdds(a, b);
    var m := RemainderOf(a, b);
  }

  lemma RemainderAdds(a: int, b: int)
    requires b != 0
    ensures a == b * TruncDiv(a, b) + TruncRem(a, b)
  {
    hide TruncDiv;
  }

  /** The remainder of the sizes, which gets the sign of the dividend. */
  lemma RemainderOf(a: int, b: int) returns (m: int)
    requires b != 0
    ensures TruncRem(a, b) == (if a >= 0 then m else -m) && 0 <= m < Size(b) && (a == 0 ==> m == 0)
  {
    var q := Size(a) / b;
    m := Size(a) % b;
    Euclidean(Size(a), b);
    Negated(b, q);
  }

  lemma Euclidean(n: int, b: int)
    requires b != 0
    ensures n == b * (n / b) + n % b && 0 <= n % b < Size(b)
  {
  }

  lemma Negated(b: int, q: int)
    ensures b * -q == -(b * q)
  {
  }

  lemma QuotientFits(a: i64, b: i64, q: int, r: int)
    requires b != 0 && !(a == I64_MIN && b == -1) && a == b * q + r && Size(r) < Size(b)
    requires (r < 0 ==> a < 0) && (r > 0 ==> a > 0)
    ensures I64_MIN <= q <= I64_MAX && I64_MIN <= r <= I64_MAX
  {
    if b == 1 || b == -1 {
    } else {
      Grows(b, q);
    }
  }

  lemma Grows(b: int, q: int)
    requires Size(b) >= 2
    ensures 2 * Size(q) <= Size(b * q)
  {
    if b >= 2 {
      Scaled(b - 2, q);
    } else {
      Scaled(-b - 2, q);
      Negated(q, b);
    }
  }

  lemma Scaled(c: int, q: int)
    requires c >= 0
    ensures q >= 0 ==> c * q >= 0
    ensures q < 0 ==> c * q <= 0
  {
  }

  // ---------------------------------------------------------------- bits

  /** The bit operators work on each bit by itself. */
  lemma BitwiseLaw(a: i64, b: i64, j: nat)
    ensures var r := OperateInt(BitAnd, a, b); r.Produces? && r.v.IntV? && (BitAt(r.v.n, j) <==> BitAt(a, j) && BitAt(b, j))
    ensures var r := OperateInt(BitOr, a, b); r.Produces? && r.v.IntV? && (BitAt(r.v.n, j) <==> BitAt(a, j) || BitAt(b, j))
    ensures var r := OperateInt(BitXor, a, b); r.Produces? && r.v.IntV? && (BitAt(r.v.n, j) <==> BitAt(a, j) != BitAt(b, j))
    ensures var r := OperateUnary(BitNot, IntV(a)); r.Produces? && r.v.IntV? && (BitAt(r.v.n, j) <==> !BitAt(a, j))
  {
    hide Bits, BitAt;
    BitsAt(AndBit, a, b, j);
    BitsAt(OrBit, a, b, j);
    BitsAt(XorBit, a, b, j);
    Flipped(a, j);
  }

  /** A shift by 64 or more, or by less than zero, has no result. To the left zeros move in, to the right the sign. */
  lemma ShiftLaw(a: i64, b: i64, j: nat)
    requires j < 64
    ensures var r := OperateInt(Shl, a, b);
            if 0 <= b < 64 then r.Produces? && r.v.IntV? && (BitAt(r.v.n, j) <==> j >= b && BitAt(a, j - b)) else r.Undefined?
    ensures var r := OperateInt(Shr, a, b);
            if 0 <= b < 64 then r.Produces? && r.v.IntV? && (BitAt(r.v.n, j) <==> if j + b < 64 then BitAt(a, j + b) else a < 0)
            else r.Undefined?
  {
    hide Pow2, BitAt, Wrap;
    if 0 <= b < 64 {
      var n: nat := b;
      ShiftedUp(a, n, j);
      WrapBits(a * Pow2(n), j);
      ShiftedDown(a, n, j);
      WrapBits(a / Pow2(n), j);
      SignBit(a, j + n);
    }
  }

  /** A 64-bit integer is determined by its 64 bits. */
  lemma BitsDetermine(a: i64, b: i64)
    requires forall j: nat :: j < 64 ==> BitAt(a, j) == BitAt(b, j)
    ensures a == b
  {
    Pow63();
    hide BitAt, Pow2;
    SameBits(a, b, 63);
  }

  lemma {:induction false} SameBits(x: int, y: int, n: nat)
    requires -Pow2(n) <= x < Pow2(n) && -Pow2(n) <= y < Pow2(n)
    requires forall j: nat :: j <= n ==> BitAt(x, j) == BitAt(y, j)
    ensures x == y
    decreases n
  {
    assert BitAt(x, 0) == BitAt(y, 0);
    if n > 0 {
      forall j: nat | j <= n - 1
        ensures BitAt(x / 2, j) == BitAt(y / 2, j)
      {
        assert BitAt(x, j + 1) == BitAt(y, j + 1);
      }
      SameBits(x / 2, y / 2, n - 1);
    }
  }

  lemma {:induction false} Constant(v: int, j: nat)
    requires -1 <= v <= 0
    ensures BitAt(v, j) <==> v == -1
    decreases j
  {
    if j > 0 {
      assert v / 2 == v;
      Constant(v, j - 1);
    }
  }

  lemma {:induction false} BitsAt(op: Bit3, a: int, b: int, j: nat)
    ensures BitAt(Bits(op, a, b), j) <==>
            match op
            case AndBit => BitAt(a, j) && BitAt(b, j)
            case OrBit => BitAt(a, j) || BitAt(b, j)
            case XorBit => BitAt(a, j) != BitAt(b, j)
    decreases j
  {
    if -1 <= a <= 0 && -1 <= b <= 0 {
      hide BitAt;
      Constant(a, j);
      Constant(b, j);
      Constant(Bits(op, a, b), j);
    } else {
      var rest, bit := Bits(op, a / 2, b / 2), if OneBit(op, a % 2 == 1, b % 2 == 1) then 1 else 0;
      assert Bits(op, a, b) == 2 * rest + bit;
      hide Bits;
      assert (2 * rest + bit) / 2 == rest && (2 * rest + bit) % 2 == bit;
      if j > 0 {
        BitsAt(op, a / 2, b / 2, j - 1);
      }
    }
  }

  lemma {:induction false} Flipped(a: int, j: nat)
    ensures BitAt(-1 - a, j) <==> !BitAt(a, j)
    decreases j
  {
    assert (-1 - a) / 2 == -1 - a / 2 && (-1 - a) % 2 == 1 - a % 2;
    if j > 0 {
      Flipped(a / 2, j - 1);
    }
  }

  lemma {:induction false} ShiftedUp(a: int, n: nat, j: nat)
    ensures BitAt(a * Pow2(n), j) <==> j >= n && BitAt(a, j - n)
    decreases n
  {
    if n > 0 {
      var half := a * Pow2(n - 1);
      assert a * Pow2(n) == 2 * half;
      hide Pow2;
      assert (2 * half) / 2 == half && (2 * half) % 2 == 0;
      if j > 0 {
        ShiftedUp(a, n - 1, j - 1);
      }
    }
  }

  lemma {:induction false} ShiftedDown(a: int, n: nat, j: nat)
    ensures BitAt(a / Pow2(n), j) <==> BitAt(a, j + n)
    decreases n
  {
    if n > 0 {
      HalfFirst(a, Pow2(n - 1));
      assert a / Pow2(n) == (a / 2) / Pow2(n - 1);
      hide Pow2;
      ShiftedDown(a / 2, n - 1, j);
    }
  }

  lemma HalfFirst(a: int, p: int)
    requires p > 0
    ensures a / (2 * p) == (a / 2) / p
  {
    var q, r := (a / 2) / p, (a / 2) % p;
    assert a == 2 * (p * q + r) + a % 2;
    QuotientIs(a, 2 * p, q, 2 * r + a % 2);
  }

  lemma QuotientIs(a: int, d: int, q: int, r: int)
    requires d > 0 && a == d * q + r && 0 <= r < d
    ensures a / d == q
  {
    var k := a / d - q;
    assert a == d * (a / d) + a % d;
    assert d * k == r - a % d;
    if k >= 1 {
      Scaled(k - 1, d);
    } else if k <= -1 {
      Scaled(-k - 1, d);
    }
  }

  /** Wrapping around keeps the lowest 64 bits. */
  lemma WrapBits(n: int, j: nat)
    requires j < 64
    ensures BitAt(Wrap(n), j) == BitAt(n, j)
  {
    hide Wrap, BitAt, Pow2;
    WrapCongruent(n);
    var k := (Wrap(n) - n) / TWO_TO_THE_64;
    Pow64();
    SameLow(n, k, 64, j);
  }

  lemma Pow64()
    ensures Pow2(64) == TWO_TO_THE_64
  {
    Pow63();
  }

  lemma {:induction false} SameLow(v: int, k: int, n: nat, j: nat)
    requires j < n
    ensures BitAt(v + k * Pow2(n), j) == BitAt(v, j)
    decreases n
  {
    var half := k * Pow2(n - 1);
    assert k * Pow2(n) == 2 * half;
    hide Pow2;
    assert (v + 2 * half) / 2 == v / 2 + half && (v + 2 * half) % 2 == v % 2;
    if j > 0 {
      SameLow(v / 2, k, n - 1, j - 1);
    }
  }

  /** The bits from the last one on are the sign. */
  lemma SignBit(a: i64, j: nat)
    ensures j >= 63 ==> (BitAt(a, j) <==> a < 0)
  {
    Pow63();
    hide Pow2, BitAt;
    if j >= 63 {
      SignAbove(a, 63, j);
    }
  }

  lemma {:induction false} SignAbove(v: int, n: nat, j: nat)
    requires -Pow2(n) <= v < Pow2(n) && j >= n
    ensures BitAt(v, j) <==> v < 0
    decreases n
  {
    if n == 0 {
      Constant(v, j);
    } else {
      SignAbove(v / 2, n - 1, j - 1);
    }
  }

  // ---------------------------------------------------------------- orders and booleans

  function Weight(b: bool): int {
    if b then 1 else 0
  }

  /** The comparisons look at the sign of the difference, and the operators on booleans at the sum of the bits. */
  lemma TruthLaw(a: i64, b: i64, x: bool, y: bool)
    ensures OperateInt(Lt, a, b) == Produces(BoolV(b - a > 0)) && OperateInt(Ge, a, b) == Produces(BoolV(b - a <= 0))
    ensures OperateInt(Gt, a, b) == Produces(BoolV(b - a < 0)) && OperateInt(Le, a, b) == Produces(BoolV(b - a >= 0))
    ensures OperateInt(Eq, a, b) == Produces(BoolV(b - a == 0)) && OperateInt(Ne, a, b) == Produces(BoolV(b - a != 0))
    ensures OperateBool(BitAnd, x, y) == Produces(BoolV(Weight(x) + Weight(y) == 2))
    ensures OperateBool(BitOr, x, y) == Produces(BoolV(Weight(x) + Weight(y) >= 1))
    ensures OperateBool(BitXor, x, y) == OperateBool(Ne, x, y) == Produces(BoolV(Weight(x) + Weight(y) == 1))
    ensures OperateBool(Eq, x, y) == Produces(BoolV(Weight(x) + Weight(y) != 1))
    ensures OperateUnary(Not, BoolV(x)) == Produces(BoolV(Weight(x) == 0))
  {
  }
}
