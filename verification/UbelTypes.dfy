/** The typing rules of the language that the emitter lowers, on the syntax alone. */
module UbelTypes {
  import opened Wrappers
  import opened UbelSyntax

  /** The types of the variables in scope (innermost scope last), how many loops are around, and the result type. */
  datatype Ctx = Ctx(scopes: seq<map<Name, Ty>>, loops: nat, ret: Ty)

  function TypeOfName(scopes: seq<map<Name, Ty>>, x: Name): Option<Ty> {
    if scopes == [] then None
    else
      var k := |scopes| - 1;
      if x in scopes[k] then Some(scopes[k][x]) else TypeOfName(scopes[..k], x)
  }

  function Inner(c: Ctx): Ctx {
    c.(scopes := c.scopes + [map[]])
  }

  function InLoop(c: Ctx): Ctx {
    c.(loops := c.loops + 1)
  }

  function Bind(c: Ctx, x: Name, t: Ty): Ctx
    requires c.scopes != []
  {
    var k := |c.scopes| - 1;
    c.(scopes := c.scopes[k := c.scopes[k][x := t]])
  }

  predicate IsComparison(op: BinOp) {
    op in {Eq, Ne, Lt, Le, Gt, Ge}
  }

  /** Both operands have one type. Bit operators keep it, equality is for both types, all other operators are for integers. */
  function BinaryType(op: BinOp, l: Ty, r: Ty): Option<Ty> {
    if l != r || l == Void then None
    else if op in {BitAnd, BitOr, BitXor} then Some(l)
    else if op in {Eq, Ne} then Some(I1)
    else if l != I64 then None
    else if IsComparison(op) then Some(I1)
    else Some(I64)
  }

  function UnaryType(op: UnaryOp): Ty {
    match op
    case Neg => I64
    case BitNot => I64
    case Not => I1
  }

  /** The type of an expression, if it has one. */
  function ExprType(c: Ctx, e: Expr): Option<Ty>
    requires c.scopes != []
    decreases e, 1
  {
    match e
    case IntLit(_) => Some(I64)
    case BoolLit(_) => Some(I1)
    case Var(x) => TypeOfName(c.scopes, x)
    case Unary(op, e1) => if ExprType(c, e1) == Some(UnaryType(op)) then Some(UnaryType(op)) else None
    case Binary(op, lhs, rhs) =>
      (match (ExprType(c, lhs), ExprType(c, rhs))
       case (Some(l), Some(r)) => BinaryType(op, l, r)
       case _ => None)
    case Logic(_, lhs, rhs) => if ExprType(c, lhs) == ExprType(c, rhs) == Some(I1) then Some(I1) else None
    case IfValue(arms) => ArmsType(c, arms)
  }

  /** Conditions are boolean, and all branches have one type. */
  function ArmsType(c: Ctx, arms: ValueArms): Option<Ty>
    requires c.scopes != []
    decreases arms, 0
  {
    match arms
    case ValueElse(last) => BranchType(c, last)
    case ValueArm(cond, branch, others) =>
      var t := BranchType(c, branch);
      if ExprType(c, cond) == Some(I1) && t.Some? && ArmsType(c, others) == t then t else None
  }

  function BranchType(c: Ctx, b: ValueBranch): Option<Ty>
    requires c.scopes != []
    decreases b, 0
  {
    match b
    case ValueExpr(e) => if ExprType(c, e) == Some(Void) then None else ExprType(c, e)
    case ValueBlock(stmts, e) =>
      var c1 := AfterStmts(Inner(c), stmts);
      if c1.None? || ExprType(c1.value, e) == Some(Void) then None else ExprType(c1.value, e)
  }

  /** The context after the statements, if all of them are well typed. */
  function AfterStmts(c: Ctx, stmts: seq<Stmt>): (r: Option<Ctx>)
    requires c.scopes != []
    ensures r.Some? ==> Extends(c, r.value)
    decreases stmts, 0
  {
    if stmts == [] then Some(c)
    else
      var c1 := AfterStmt(c, stmts[0]);
      if c1.None? then None else AfterStmts(c1.value, stmts[1..])
  }

  /** Only the innermost scope may differ. */
  predicate Extends(c: Ctx, c': Ctx) {
    |c'.scopes| == |c.scopes| > 0 && c'.scopes[..|c.scopes| - 1] == c.scopes[..|c.scopes| - 1] && c'.loops == c.loops && c'.ret == c.ret
  }

  predicate BlockOk(c: Ctx, stmts: seq<Stmt>)
    requires c.scopes != []
    decreases stmts, 1
  {
    AfterStmts(Inner(c), stmts).Some?
  }

  /** A value of type `t` can be assigned to a variable of type `x`. */
  predicate Assignable(aop: AssignOp, x: Ty, t: Ty) {
    match aop
    case Plain => t == x
    case Compound(op) => !IsComparison(op) && BinaryType(op, x, t).Some?
  }

  function AfterStmt(c: Ctx, s: Stmt): (r: Option<Ctx>)
    requires c.scopes != []
    ensures r.Some? ==> Extends(c, r.value)
    decreases s, 1
  {
    match s
    case Let(x, e) =>
      (match ExprType(c, e)
       case Some(t) => if t == Void then None else Some(Bind(c, x, t))
       case None => None)
    case _ => if StmtOk(c, s) then Some(c) else None
  }

  /** The statements that bind no variable. */
  predicate StmtOk(c: Ctx, s: Stmt)
    requires c.scopes != []
    decreases s, 0
  {
    match s
    case Let(_, _) => false
    case Assign(x, aop, e) =>
      (match (TypeOfName(c.scopes, x), ExprType(c, e))
       case (Some(l), Some(t)) => Assignable(aop, l, t)
       case _ => false)
    case Eval(e) => ExprType(c, e).Some?
    case Print(items) => forall i :: 0 <= i < |items| ==> ItemOk(c, items[i])
    case Return(NoResult) => c.ret == Void
    case Return(Result(e)) => c.ret != Void && ExprType(c, e) == Some(c.ret)
    case If(arms) => ArmsOk(c, arms)
    case While(cond, body) => ExprType(c, cond) == Some(I1) && BlockOk(InLoop(c), body)
    case Loop(body) => BlockOk(InLoop(c), body)
    case For(x, _, lo, hi, body) =>
      && ExprType(c, lo) == Some(I64) && ExprType(c, hi) == Some(I64)
      && AfterStmts(Bind(Inner(InLoop(c)), x, I64), body).Some?
    case Break => c.loops > 0
    case Continue => c.loops > 0
    case With(size, body) => ExprType(c, size) == Some(I64) && BlockOk(c, body)
  }

  /** A value that is printed is an integer or a boolean. */
  predicate ItemOk(c: Ctx, item: Item)
    requires c.scopes != []
    decreases item, 0
  {
    match item
    case Text(_) => true
    case Piece(e) => ExprType(c, e).Some? && ExprType(c, e) != Some(Void)
  }

  predicate ArmsOk(c: Ctx, arms: Arms)
    requires c.scopes != []
    decreases arms, 0
  {
    match arms
    case NoElse => true
    case Else(last) => BranchOk(c, last)
    case Arm(cond, branch, others) => ExprType(c, cond) == Some(I1) && BranchOk(c, branch) && ArmsOk(c, others)
  }

  /** A branch without braces is an expression. */
  predicate BranchOk(c: Ctx, b: Branch)
    requires c.scopes != []
    decreases b, 0
  {
    match b
    case Block(stmts) => BlockOk(c, stmts)
    case Single(s) => (s.Eval? || s.Assign? || s.Print?) && StmtOk(c, s)
  }

  function ParamTypes(params: seq<(Name, Ty)>): map<Name, Ty> {
    if params == [] then map[] else ParamTypes(params[..|params| - 1])[params[|params| - 1].0 := params[|params| - 1].1]
  }

  /** Every statement of the body is well typed, with the parameters in scope and no loop around. */
  predicate WellTyped(f: Function) {
    AfterStmts(Ctx([ParamTypes(f.params)], 0, f.ret), f.body).Some?
  }
}
