/** More fuel does not change an evaluation that has come to its end. */
module UbelFuel {
  import opened UbelSyntax
  import opened UbelSource
  import opened UbelLaws

  /** `q` is the evaluation `r` with more fuel: the same, unless the fuel ran out. The trap for a missing return is not
      among the ends of an evaluation. */
  predicate Settled(r: Res, q: Res) {
    r.out != Trapped(NoReturn) && (r.out != Timeout ==> q == r)
  }

  lemma {:induction false} MoreExpr(e: Expr, st: State, fuel: nat, more: nat)
    requires fuel <= more
    ensures Settled(EvalExpr(e, st, fuel), EvalExpr(e, st, more))
    decreases fuel, e, 0
  {
    hide EvalValueArms, Operate, OperateUnary;
    match e
    case Unary(_, e1) => MoreExpr(e1, st, fuel, more);
    case Binary(_, lhs, rhs) =>
      MoreExpr(lhs, st, fuel, more);
      MoreExpr(rhs, EvalExpr(lhs, st, fuel).st, fuel, more);
    case Logic(_, lhs, rhs) =>
      MoreExpr(lhs, st, fuel, more);
      MoreExpr(rhs, EvalExpr(lhs, st, fuel).st, fuel, more);
    case IfValue(arms) => MoreValueArms(arms, st, fuel, more);
    case _ =>
  }

  lemma {:induction false} MoreValueArms(arms: ValueArms, st: State, fuel: nat, more: nat)
    requires fuel <= more
    ensures Settled(EvalValueArms(arms, st, fuel), EvalValueArms(arms, st, more))
    decreases fuel, arms, 0
  {
    hide EvalExpr, EvalValueBranch;
    match arms
    case ValueElse(last) => MoreValueBranch(last, st, fuel, more);
    case ValueArm(cond, branch, others) =>
      MoreExpr(cond, st, fuel, more);
      var c := EvalExpr(cond, st, fuel);
      MoreValueBranch(branch, c.st, fuel, more);
      MoreValueArms(others, c.st, fuel, more);
  }

  lemma {:induction false} MoreValueBranch(b: ValueBranch, st: State, fuel: nat, more: nat)
    requires fuel <= more
    ensures Settled(EvalValueBranch(b, st, fuel), EvalValueBranch(b, st, more))
    decreases fuel, b, 0
  {
    hide EvalExpr, EvalStmts;
    match b
    case ValueExpr(e) => MoreExpr(e, st, fuel, more);
    case ValueBlock(stmts, e) =>
      MoreStmts(stmts, Push(st, map[]), fuel, more);
      MoreExpr(e, EvalStmts(stmts, Push(st, map[]), fuel).st, fuel, more);
  }

  lemma {:induction false} MoreStmts(stmts: seq<Stmt>, st: State, fuel: nat, more: nat)
    requires fuel <= more
    ensures Settled(EvalStmts(stmts, st, fuel), EvalStmts(stmts, st, more))
    decreases fuel, stmts, 0
  {
    hide EvalStmt;
    if stmts != [] {
      MoreStmt(stmts[0], st, fuel, more);
      MoreStmts(stmts[1..], EvalStmt(stmts[0], st, fuel).st, fuel, more);
    }
  }

  lemma {:induction false} MoreBlock(stmts: seq<Stmt>, st: State, fuel: nat, more: nat)
    requires fuel <= more
    ensures Settled(EvalBlock(stmts, st, fuel), EvalBlock(stmts, st, more))
    decreases fuel, stmts, 1
  {
    hide EvalStmts;
    MoreStmts(stmts, Push(st, map[]), fuel, more);
  }

  /** A statement that has ended with some fuel ends the same way with more. */
  lemma {:induction false} MoreStmt(s: Stmt, st: State, fuel: nat, more: nat)
    requires fuel <= more
    ensures Settled(EvalStmt(s, st, fuel), EvalStmt(s, st, more))
    decreases fuel, s, 1
  {
    hide EvalExpr, EvalPrint, EvalArms, EvalWhile, EvalLoop, EvalFor, EvalBlock, Operate, EnterFor, OpenArena;
    match s
    case Let(_, e) => MoreExpr(e, st, fuel, more);
    case Assign(x, aop, e) =>
      MoreExpr(e, st, fuel, more);
      MoreAssign(x, aop, EvalExpr(e, st, fuel));
      hide EvalAssign;
    case Eval(e) => MoreExpr(e, st, fuel, more);
    case Print(items) => MorePrint(items, [], st, fuel, more);
    case Return(Result(e)) => MoreExpr(e, st, fuel, more);
    case If(arms) => MoreArms(arms, st, fuel, more);
    case While(_, _) => MoreWhile(s, st, fuel, more);
    case Loop(body) => MoreLoop(body, st, fuel, more);
    case For(_, _, _, _, _) => MoreForStmt(s, st, fuel, more);
    case With(size, body) =>
      MoreExpr(size, st, fuel, more);
      var r := EvalExpr(size, st, fuel);
      if r.out.Yield? && r.out.v.IntV? {
        MoreBlock(body, OpenArena(r.st, r.out.v.n), fuel, more);
      }
    case _ =>
  }

  /** An assignment runs out of fuel only with its value. */
  lemma MoreAssign(x: Name, aop: AssignOp, r: Res)
    ensures r.out == Timeout ==> EvalAssign(x, aop, r).out == Timeout
    ensures r.out != Trapped(NoReturn) ==> EvalAssign(x, aop, r).out != Trapped(NoReturn)
  {
    hide Operate;
  }

  lemma {:induction false} MoreForStmt(s: Stmt, st: State, fuel: nat, more: nat)
    requires s.For? && fuel <= more
    ensures Settled(EvalStmt(s, st, fuel), EvalStmt(s, st, more))
    decreases fuel, s, 0
  {
    hide EvalExpr, EvalFor, EnterFor;
    MoreExpr(s.lo, st, fuel, more);
    var l := EvalExpr(s.lo, st, fuel);
    if l.out.Yield? {
      MoreExpr(s.hi, l.st, fuel, more);
      var h := EvalExpr(s.hi, l.st, fuel);
      if h.out.Yield? && l.out.v.IntV? && h.out.v.IntV? {
        MoreFor(s.name, s.inclusive, l.out.v.n, h.out.v.n, s.body, EnterFor(h.st, s.inclusive, h.out.v.n), fuel, more);
      }
    }
  }

  lemma {:induction false} MorePrint(items: seq<Item>, shown: seq<Shown>, st: State, fuel: nat, more: nat)
    requires fuel <= more
    ensures Settled(EvalPrint(items, shown, st, fuel), EvalPrint(items, shown, st, more))
    decreases fuel, items, 0
  {
    hide EvalItem, Output;
    if items != [] {
      MoreItem(items[0], st, fuel, more);
      var r := EvalItem(items[0], st, fuel);
      match r.out {
        case Done => MorePrint(items[1..], shown + [ShownText(items[0].s)], r.st, fuel, more);
        case Yield(v) => MorePrint(items[1..], shown + [ShownValue(v)], r.st, fuel, more);
        case _ =>
      }
    }
  }

  lemma {:induction false} MoreItem(item: Item, st: State, fuel: nat, more: nat)
    requires fuel <= more
    ensures Settled(EvalItem(item, st, fuel), EvalItem(item, st, more))
    decreases fuel, item, 0
  {
    hide EvalExpr;
    match item
    case Text(_) =>
    case Piece(e) => MoreExpr(e, st, fuel, more);
  }

  lemma {:induction false} MoreArms(arms: Arms, st: State, fuel: nat, more: nat)
    requires fuel <= more
    ensures Settled(EvalArms(arms, st, fuel), EvalArms(arms, st, more))
    decreases fuel, arms, 0
  {
    hide EvalExpr, EvalBranch;
    match arms
    case NoElse =>
    case Else(last) => MoreBranch(last, st, fuel, more);
    case Arm(cond, branch, others) =>
      MoreExpr(cond, st, fuel, more);
      var c := EvalExpr(cond, st, fuel);
      MoreBranch(branch, c.st, fuel, more);
      MoreArms(others, c.st, fuel, more);
  }

  lemma {:induction false} MoreBranch(b: Branch, st: State, fuel: nat, more: nat)
    requires fuel <= more
    ensures Settled(EvalBranch(b, st, fuel), EvalBranch(b, st, more))
    decreases fuel, b, 0
  {
    hide EvalBlock, EvalStmt;
    match b
    case Block(stmts) => MoreBlock(stmts, st, fuel, more);
    case Single(s) => MoreStmt(s, st, fuel, more);
  }

  lemma {:induction false} MoreWhile(loop: Stmt, st: State, fuel: nat, more: nat)
    requires loop.While? && fuel <= more
    ensures Settled(EvalWhile(loop, st, fuel), EvalWhile(loop, st, more))
    decreases fuel, loop, 0
  {
    hide EvalExpr, EvalBlock;
    MoreExpr(loop.cond, st, fuel, more);
    var c := EvalExpr(loop.cond, st, fuel);
    if c.out.Yield? && c.out.v.BoolV? && c.out.v.b {
      MoreBlock(loop.body, c.st, fuel, more);
      var r := EvalBlock(loop.body, c.st, fuel);
      if fuel > 0 {
        MoreWhile(loop, r.st, fuel - 1, more - 1);
      }
    }
  }

  lemma {:induction false} MoreLoop(body: seq<Stmt>, st: State, fuel: nat, more: nat)
    requires fuel <= more
    ensures Settled(EvalLoop(body, st, fuel), EvalLoop(body, st, more))
    decreases fuel, body, 2
  {
    hide EvalBlock;
    MoreBlock(body, st, fuel, more);
    if fuel > 0 {
      MoreLoop(body, EvalBlock(body, st, fuel).st, fuel - 1, more - 1);
    }
  }

  lemma {:induction false} MoreFor(x: Name, inclusive: bool, i: i64, hi: i64, body: seq<Stmt>, st: State, fuel: nat, more: nat)
    requires fuel <= more
    ensures Settled(EvalFor(x, inclusive, i, hi, body, st, fuel), EvalFor(x, inclusive, i, hi, body, st, more))
    decreases fuel, body, 2
  {
    hide EvalStmts, NextFor;
    MoreStmts(body, Push(st, map[x := IntV(i)]), fuel, more);
    var r := Pop(EvalStmts(body, Push(st, map[x := IntV(i)]), fuel));
    MoreNext(x, inclusive, i, hi, body, r.st, fuel, more);
  }

  lemma {:induction false} MoreNext(x: Name, inclusive: bool, i: i64, hi: i64, body: seq<Stmt>, st: State, fuel: nat, more: nat)
    requires fuel <= more
    ensures Settled(NextFor(x, inclusive, i, hi, body, st, fuel), NextFor(x, inclusive, i, hi, body, st, more))
    decreases fuel, body, 1
  {
    hide EvalFor, Wrap;
    if !(i == I64_MAX && !st.wraps) && fuel > 0 {
      MoreFor(x, inclusive, Wrap(i + 1), hi, body, LeaveFor(st, i), fuel - 1, more - 1);
    }
  }
}
