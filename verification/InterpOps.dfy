/** The binary operators on integers and booleans as the interpreter computes them, by way of double-precision numbers
    (crates/core/src/interpreter/eval/expr.rs), compared with the exact ones of the emitted code. */
module InterpOps {
  import opened UbelSyntax

  // ---------------------------------------------------------------- integers as doubles

  /** Up to here a double holds every integer. */
  const EXACT: int := 0x20_0000_0000_0000

  /** The distance between the doubles around `n` is two to this power. */
  function Scale(n: nat): nat {
    if n < EXACT then 0 else 1 + Scale(n / 2)
  }

  function Unit(n: nat): int {
    Pow2(Scale(n))
  }

  /** `n` as a multiple of `u`, to the nearest one and on a tie to the even one. */
  function Nearest(n: nat, u: int): int
    requires u > 0
  {
    var q, r := n / u, n % u;
    if 2 * r < u || (2 * r == u && q % 2 == 0) then q * u else (q + 1) * u
  }

  /** The conversion `n as f64`, and the rounding of an exact sum, difference or product. */
  function Double(n: int): int {
    if n >= 0 then Nearest(n, Unit(n)) else -Nearest(-n, Unit(-n))
  }

  /** The conversion `as i64`, which saturates. */
  function AsI64(n: int): i64 {
    if n > I64_MAX then I64_MAX else if n < I64_MIN then I64_MIN else n
  }

  // ---------------------------------------------------------------- the operators

  datatype Answer = Gives(v: Value) | Panics

  /** `eval_binop`, without division. */
  function InterpOp(op: BinOp, l: Value, r: Value): Answer
    requires op != Div
  {
    match (l, r)
    case (IntV(a), IntV(b)) => InterpInt(op, a, b)
    case _ =>
      match op
      case Eq => Gives(BoolV(l == r))
      case Ne => Gives(BoolV(l != r))
      case _ => Panics
  }

  function InterpInt(op: BinOp, a: i64, b: i64): Answer
    requires op != Div
  {
    var x, y := Double(a), Double(b);
    match op
    case Add => Gives(IntV(AsI64(Double(x + y))))
    case Sub => Gives(IntV(AsI64(Double(x - y))))
    case Mul => Gives(IntV(AsI64(Double(x * y))))
    case Rem => if y == 0 then Panics else Gives(IntV(AsI64(TruncRem(x, y))))
    case BitAnd => Gives(IntV(BitsI64(AndBit, a, b)))
    case BitOr => Gives(IntV(BitsI64(OrBit, a, b)))
    case BitXor => Gives(IntV(BitsI64(XorBit, a, b)))
    case Shl => Gives(IntV(Wrap(a * Pow2(b % 64))))
    case Shr => Gives(IntV(Wrap(a / Pow2(b % 64))))
    case Eq => Gives(BoolV(a == b))
    case Ne => Gives(BoolV(a != b))
    case Lt => Gives(BoolV(x < y))
    case Le => Gives(BoolV(x <= y))
    case Gt => Gives(BoolV(x > y))
    case Ge => Gives(BoolV(x >= y))
  }

  /** The interpreter gives the exact result, or stops where the emitted code traps. */
  predicate Agrees(op: BinOp, l: Value, r: Value)
    requires op != Div
  {
    match Operate(op, l, r)
    case Produces(v) => InterpOp(op, l, r) == Gives(v)
    case DivisionByZero => InterpOp(op, l, r) == Panics
    case Undefined => true
    case IllTyped => true
  }

  // ---------------------------------------------------------------- where they agree

  predicate Small(n: int) {
    -EXACT <= n <= EXACT
  }

  lemma SmallIsExact(n: int)
    requires Small(n)
    ensures Double(n) == n
  {
    assert Scale(EXACT / 2) == 0 && Scale(EXACT) == 1 && Pow2(1) == 2 && Pow2(0) == 1;
  }

  /** The exact result of the operators that round. */
  function Exact(op: BinOp, a: int, b: int): int {
    match op
    case Add => a + b
    case Sub => a - b
    case Mul => a * b
    case _ => 0
  }

  /** As long as the operands and the exact result are at most 2^53, the interpreter computes what the emitted code does. */
  lemma SmallAgrees(op: BinOp, a: i64, b: i64)
    requires op != Div && Small(a) && Small(b) && Small(Exact(op, a, b))
    ensures Agrees(op, IntV(a), IntV(b))
  {
    SmallIsExact(a);
    SmallIsExact(b);
    SmallIsExact(Exact(op, a, b));
    hide Double, BitsI64, Pow2;
    if op.Rem? && b != 0 {
      RemSmall(a, b);
    }
  }

  lemma RemSmall(a: int, b: int)
    requires b != 0 && I64_MIN <= a <= I64_MAX && I64_MIN <= b <= I64_MAX
    ensures I64_MIN <= TruncRem(a, b) <= I64_MAX
  {
    if a >= 0 {
      assert a - b * (a / b) == a % b;
    } else {
      assert -a - b * ((-a) / b) == (-a) % b;
    }
  }

  predicate Within(n: int, limit: int) {
    -limit <= n <= limit
  }

  /** Sums of integers up to a limit are exact in all cases if and only if the limit is at most 2^53. */
  lemma SumLimit(limit: nat)
    ensures (forall a: i64, b: i64 :: Within(a, limit) && Within(b, limit) && Within(a + b, limit) ==> Agrees(Add, IntV(a), IntV(b)))
            <==> limit <= EXACT
  {
    if limit <= EXACT {
      forall a: i64, b: i64 | Within(a, limit) && Within(b, limit) && Within(a + b, limit)
        ensures Agrees(Add, IntV(a), IntV(b))
      {
        SmallAgrees(Add, a, b);
      }
    } else {
      SumRounds();
      assert Within(EXACT, limit) && Within(1, limit) && Within(EXACT + 1, limit);
      assert !Agrees(Add, IntV(EXACT), IntV(1));
    }
  }

  /** 2^53 + 1 is 2^53 in the interpreter, and so not greater than it. */
  lemma SumRounds()
    ensures InterpOp(Add, IntV(EXACT), IntV(1)) == Gives(IntV(EXACT)) && Operate(Add, IntV(EXACT), IntV(1)) == Produces(IntV(EXACT + 1))
    ensures InterpOp(Lt, IntV(EXACT), IntV(EXACT + 1)) == Gives(BoolV(false))
    ensures Operate(Lt, IntV(EXACT), IntV(EXACT + 1)) == Produces(BoolV(true))
  {
    SmallIsExact(EXACT);
    SmallIsExact(1);
    assert Scale((EXACT + 1) / 2) == 0 && Scale(EXACT + 1) == 1 && Pow2(1) == 2;
    assert Double(EXACT + 1) == EXACT;
  }

  // ---------------------------------------------------------------- comparisons

  /** The doubles around `n` that are not exact are at least 2^52 units away from zero. */
  lemma {:induction false} ScaleBounds(n: nat)
    ensures n < Unit(n) * EXACT && (Scale(n) > 0 ==> Unit(n) * (EXACT / 2) <= n)
  {
    if n >= EXACT {
      ScaleBounds(n / 2);
      if Scale(n / 2) == 0 {
        assert Pow2(0) == 1 && Pow2(1) == 2;
      }
    }
  }

  lemma {:induction false} PowFactor(i: nat, j: nat) returns (k: int)
    requires i <= j
    ensures k > 0 && Pow2(j) == k * Pow2(i) && (i < j ==> k % 2 == 0)
  {
    if i == j {
      k := 1;
    } else {
      var h := PowFactor(i, j - 1);
      k := 2 * h;
    }
  }

  lemma {:induction false} ScaleMono(n: nat, m: nat)
    requires n <= m
    ensures Scale(n) <= Scale(m)
  {
    if n >= EXACT {
      ScaleMono(n / 2, m / 2);
    }
  }

  lemma TimesMono(a: int, b: int, u: int)
    requires a <= b && u > 0
    ensures a * u <= b * u
  {
  }

  lemma NearestMono(n: nat, m: nat, u: int)
    requires n <= m && u > 0
    ensures Nearest(n, u) <= Nearest(m, u)
  {
    var q, q' := n / u, m / u;
    if q < q' {
      TimesMono(q + 1, q', u);
      TimesMono(q, q + 1, u);
      TimesMono(q', q' + 1, u);
    } else {
      QuotientMono(n, m, u);
      TimesMono(q, q + 1, u);
    }
  }

  lemma QuotientMono(n: nat, m: nat, u: int)
    requires n <= m && u > 0
    ensures n / u <= m / u && (n / u == m / u ==> n % u <= m % u)
  {
    if n / u > m / u {
      TimesMono(m / u + 1, n / u, u);
    }
  }

  /** A number below a multiple of the unit is not rounded past it, and one above it not below it. */
  lemma NearestBelow(n: nat, u: int, k: int)
    requires u > 0 && n < k * u
    ensures Nearest(n, u) <= k * u
  {
    var q := n / u;
    if q >= k {
      TimesMono(k, q, u);
    }
    TimesMono(q + 1, k, u);
    TimesMono(q, q + 1, u);
  }

  lemma NearestAbove(n: nat, u: int, k: int)
    requires u > 0 && k * u <= n
    ensures k * u <= Nearest(n, u)
  {
    var q := n / u;
    if q < k {
      TimesMono(q + 1, k, u);
    }
    TimesMono(k, q, u);
    TimesMono(q, q + 1, u);
  }

  lemma RoundMono(n: nat, m: nat)
    requires n <= m
    ensures Nearest(n, Unit(n)) <= Nearest(m, Unit(m))
  {
    hide Nearest, Scale, Pow2;
    ScaleMono(n, m);
    if Scale(n) == Scale(m) {
      NearestMono(n, m, Unit(n));
    } else {
      var k := PowFactor(Scale(n), Scale(m));
      ScaleBounds(n);
      ScaleBounds(m);
      var half := EXACT / 2;
      var p := half * Unit(m);
      BetweenScales(Unit(n), Unit(m), k);
      NearestBelow(n, Unit(n), half * k);
      NearestAbove(m, Unit(m), half);
    }
  }

  lemma BetweenScales(u: int, v: int, k: int)
    requires u > 0 && k > 0 && k % 2 == 0 && v == k * u
    ensures u * EXACT <= EXACT / 2 * k * u == EXACT / 2 * v
  {
    assert k >= 2;
    TimesMono(2, k, u);
  }

  lemma DoubleMono(a: int, b: int)
    requires a <= b
    ensures Double(a) <= Double(b)
  {
    if a >= 0 {
      RoundMono(a, b);
    } else if b < 0 {
      RoundMono(-b, -a);
    } else {
      NearestAbove(-a, Unit(-a), 0);
      NearestAbove(b, Unit(b), 0);
    }
  }

  /** The interpreter compares two integers as the emitted code does if and only if they are equal or do not round to the
      same double. */
  lemma ComparesIff(a: i64, b: i64)
    ensures (forall op :: op in {Lt, Le, Gt, Ge} ==> Agrees(op, IntV(a), IntV(b))) <==> a == b || Double(a) != Double(b)
  {
    if a <= b {
      DoubleMono(a, b);
    } else {
      DoubleMono(b, a);
    }
    hide Double;
    var strict := if a <= b then Lt else Gt;
    assert a != b && Double(a) == Double(b) ==> !Agrees(strict, IntV(a), IntV(b));
    assert a == b || Double(a) != Double(b) ==> Agrees(Lt, IntV(a), IntV(b)) && Agrees(Le, IntV(a), IntV(b)) && Agrees(Gt, IntV(a), IntV(b)) && Agrees(Ge, IntV(a), IntV(b));
  }

  lemma {:induction false} PowerIsExact(k: nat)
    ensures Scale(EXACT * Pow2(k)) == k + 1 && Nearest(EXACT * Pow2(k), Pow2(k + 1)) == EXACT * Pow2(k)
  {
    var h := EXACT / 2;
    assert EXACT * Pow2(k) == h * Pow2(k + 1);
    assert EXACT * Pow2(k) / Pow2(k + 1) == h && EXACT * Pow2(k) % Pow2(k + 1) == 0 by {
      MultipleOf(h, Pow2(k + 1));
    }
    assert EXACT * Pow2(k) >= EXACT;
    if k > 0 {
      PowerIsExact(k - 1);
      assert EXACT * Pow2(k) / 2 == EXACT * Pow2(k - 1);
    } else {
      assert Scale(EXACT / 2) == 0 && Pow2(0) == 1;
    }
  }

  lemma MultipleOf(h: int, u: int)
    requires u > 0
    ensures h * u / u == h && h * u % u == 0
  {
    var n := h * u;
    var q := n / u;
    assert n == q * u + n % u;
    if q < h {
      TimesMono(q + 1, h, u);
    } else if q > h {
      TimesMono(h + 1, q, u);
    }
  }

  const HALF_RANGE: int := 0x4000_0000_0000_0000

  /** Where an exact sum wraps around, the interpreter saturates: 2^62 + 2^62. */
  lemma SumSaturates()
    ensures InterpOp(Add, IntV(HALF_RANGE), IntV(HALF_RANGE)) == Gives(IntV(I64_MAX))
    ensures Operate(Add, IntV(HALF_RANGE), IntV(HALF_RANGE)) == Produces(IntV(I64_MIN))
  {
    assert Pow2(5) == 32;
    assert Pow2(9) == 512 && Pow2(10) == 1024;
    PowerIsExact(9);
    PowerIsExact(10);
    hide Nearest, Scale, Pow2;
  }

  /** Bit operators on booleans: the emitted code computes them, the interpreter panics. */
  lemma BoolBitsPanic(op: BinOp, a: bool, b: bool)
    requires op in {BitAnd, BitOr, BitXor}
    ensures InterpOp(op, BoolV(a), BoolV(b)) == Panics && Operate(op, BoolV(a), BoolV(b)).Produces?
  {
  }
}
