/** The int and bool part of Ubel that the LLVM emitter lowers, and its 64-bit arithmetic. */
module UbelSyntax {

  const I64_MIN: int := -0x8000_0000_0000_0000
  const I64_MAX: int := 0x7FFF_FFFF_FFFF_FFFF

  type i64 = n: int | I64_MIN <= n <= I64_MAX witness 0

  /** Two's complement wrap-around. */
  function Wrap(n: int): (r: i64)
    ensures I64_MIN <= n <= I64_MAX ==> r == n
  {
    (n - I64_MIN) % 0x1_0000_0000_0000_0000 + I64_MIN
  }

  // ---------------------------------------------------------------- syntax

  datatype Name = Name(text: string)

  datatype Ty = I64 | I1 | Void

  datatype UnaryOp = Neg | BitNot | Not

  datatype BinOp =
    | Add | Sub | Mul | Div | Rem
    | BitAnd | BitOr | BitXor | Shl | Shr
    | Eq | Ne | Lt | Le | Gt | Ge

  datatype Expr =
    | IntLit(n: i64)
    | BoolLit(b: bool)
    | Var(name: Name)
    | Unary(uop: UnaryOp, operand: Expr)
    | Binary(op: BinOp, lhs: Expr, rhs: Expr)
    | Logic(isAnd: bool, lhs: Expr, rhs: Expr)
    | IfValue(arms: ValueArms)

  /** `if`/`elif` conditions with their branches, and the `else` that every value-`if` has. */
  datatype ValueArms = ValueElse(last: ValueBranch) | ValueArm(cond: Expr, branch: ValueBranch, others: ValueArms)

  /** A branch is an expression, or a block that ends in one. */
  datatype ValueBranch = ValueExpr(e: Expr) | ValueBlock(stmts: seq<Stmt>, e: Expr)

  datatype Stmt =
    | Let(name: Name, value: Expr)
    | Assign(name: Name, aop: AssignOp, value: Expr)
    | Eval(e: Expr)
    | Print(items: seq<Item>)
    | Return(result: Result)
    | If(ifArms: Arms)
    | While(cond: Expr, body: seq<Stmt>)
    | Loop(body: seq<Stmt>)
    | For(name: Name, inclusive: bool, lo: Expr, hi: Expr, body: seq<Stmt>)
    | Break
    | Continue
    | With(size: Expr, body: seq<Stmt>)

  datatype AssignOp = Plain | Compound(op: BinOp)

  datatype Result = NoResult | Result(e: Expr)

  datatype Arms = NoElse | Else(last: Branch) | Arm(cond: Expr, branch: Branch, others: Arms)

  /** A branch of a statement-`if`: a block, or a single expression, which opens no scope. */
  datatype Branch = Block(stmts: seq<Stmt>) | Single(s: Stmt)

  /** The pieces of a `print`: literal text, or a value. */
  datatype Item = Text(s: string) | Piece(e: Expr)

  datatype Function = Function(params: seq<(Name, Ty)>, ret: Ty, body: seq<Stmt>)

  // ---------------------------------------------------------------- values and operators

  /** `ArenaV` is a pointer to an open arena; no expression of the language produces one. */
  datatype Value = IntV(n: i64) | BoolV(b: bool) | ArenaV(id: nat)

  predicate HasType(v: Value, ty: Ty) {
    match ty
    case I64 => v.IntV?
    case I1 => v.BoolV?
    case Void => false
  }

  datatype Bit3 = AndBit | OrBit | XorBit

  function OneBit(op: Bit3, a: bool, b: bool): bool {
    match op
    case AndBit => a && b
    case OrBit => a || b
    case XorBit => a != b
  }

  /** Bitwise operators on two's complement integers of any width. */
  function Bits(op: Bit3, a: int, b: int): int
    decreases if a < 0 then -a else a + 1, if b < 0 then -b else b + 1
  {
    if -1 <= a <= 0 && -1 <= b <= 0 then
      if OneBit(op, a == -1, b == -1) then -1 else 0
    else
      2 * Bits(op, a / 2, b / 2) + (if OneBit(op, a % 2 == 1, b % 2 == 1) then 1 else 0)
  }

  function Pow2(n: nat): (p: int)
    ensures p > 0
  {
    if n == 0 then 1 else 2 * Pow2(n - 1)
  }

  /** Bitwise operators stay within any width that holds both operands. */
  lemma {:induction false} BitsWidth(op: Bit3, a: int, b: int, n: nat)
    requires -Pow2(n) <= a < Pow2(n) && -Pow2(n) <= b < Pow2(n)
    ensures -Pow2(n) <= Bits(op, a, b) < Pow2(n)
    decreases n
  {
    if n > 0 && !(-1 <= a <= 0 && -1 <= b <= 0) {
      BitsWidth(op, a / 2, b / 2, n - 1);
    }
  }

  lemma {:induction false} BitNotIsXor(a: int)
    ensures Bits(XorBit, a, -1) == -1 - a
    decreases if a < 0 then -a else a + 1
  {
    if !(-1 <= a <= 0) {
      BitNotIsXor(a / 2);
    }
  }

  lemma Pow63()
    ensures Pow2(63) == I64_MAX + 1
  {
    assert Pow2(10) == 1024;
    assert Pow2(20) == 1024 * Pow2(10);
    assert Pow2(30) == 1024 * Pow2(20);
    assert Pow2(40) == 1024 * Pow2(30);
    assert Pow2(50) == 1024 * Pow2(40);
    assert Pow2(60) == 1024 * Pow2(50);
  }

  function BitsI64(op: Bit3, a: i64, b: i64): i64 {
    Pow63();
    BitsWidth(op, a, b, 63);
    Bits(op, a, b)
  }

  /** Division that truncates toward zero, and its remainder, as the machine divides. */
  function TruncDiv(a: int, b: int): int
    requires b != 0
  {
    if a >= 0 then a / b else -((-a) / b)
  }

  function TruncRem(a: int, b: int): int
    requires b != 0
  {
    a - b * TruncDiv(a, b)
  }

  datatype OpResult = Produces(v: Value) | DivisionByZero | Undefined | IllTyped

  /** The value of a binary operator. A shift by 64 or more, or by less than zero, and the overflowing
      division have no defined result. */
  function Operate(op: BinOp, l: Value, r: Value): OpResult {
    match (l, r)
    case (IntV(a), IntV(b)) => OperateInt(op, a, b)
    case (BoolV(a), BoolV(b)) => OperateBool(op, a, b)
    case _ => IllTyped
  }

  function OperateInt(op: BinOp, a: i64, b: i64): OpResult {
    match op
    case Add => Produces(IntV(Wrap(a + b)))
    case Sub => Produces(IntV(Wrap(a - b)))
    case Mul => Produces(IntV(Wrap(a * b)))
    case Div => if b == 0 then DivisionByZero else if a == I64_MIN && b == -1 then Undefined else Produces(IntV(Wrap(TruncDiv(a, b))))
    case Rem => if b == 0 then DivisionByZero else if a == I64_MIN && b == -1 then Undefined else Produces(IntV(Wrap(TruncRem(a, b))))
    case BitAnd => Produces(IntV(BitsI64(AndBit, a, b)))
    case BitOr => Produces(IntV(BitsI64(OrBit, a, b)))
    case BitXor => Produces(IntV(BitsI64(XorBit, a, b)))
    case Shl => if 0 <= b < 64 then Produces(IntV(Wrap(a * Pow2(b)))) else Undefined
    case Shr => if 0 <= b < 64 then Produces(IntV(Wrap(a / Pow2(b)))) else Undefined
    case Eq => Produces(BoolV(a == b))
    case Ne => Produces(BoolV(a != b))
    case Lt => Produces(BoolV(a < b))
    case Le => Produces(BoolV(a <= b))
    case Gt => Produces(BoolV(a > b))
    case Ge => Produces(BoolV(a >= b))
  }

  function OperateBool(op: BinOp, a: bool, b: bool): OpResult {
    match op
    case BitAnd => Produces(BoolV(a && b))
    case BitOr => Produces(BoolV(a || b))
    case BitXor => Produces(BoolV(a != b))
    case Eq => Produces(BoolV(a == b))
    case Ne => Produces(BoolV(a != b))
    case _ => IllTyped
  }

  function OperateUnary(op: UnaryOp, v: Value): OpResult {
    match (op, v)
    case (Neg, IntV(a)) => Produces(IntV(Wrap(0 - a)))
    case (BitNot, IntV(a)) => Produces(IntV(-1 - a))
    case (Not, BoolV(b)) => Produces(BoolV(!b))
    case _ => IllTyped
  }
}
