/** Laws of the direct semantics: what the value of a block adds to its effect, and when the wrap-around of a counter
    makes a difference. */
module UbelLaws {
  import opened UbelSyntax
  import opened UbelSource

  // ---------------------------------------------------------------- values of statements

  /** The effect of an evaluation, without its value. */
  function Dropped(r: Res): Res {
    if r.out.Yield? then Res(Done, r.st) else r
  }

  /** Running a statement is evaluating it and dropping its value. */
  lemma {:induction false} TailStmt(s: Stmt, st: State, fuel: nat)
    ensures EvalStmt(s, st, fuel) == Dropped(EvalTail(s, st, fuel))
    decreases s, 1
  {
    hide EvalExpr, EvalStmts, EvalArms, EvalTailArms, EvalTailStmts, EvalBlock, EvalTailBlock;
    match s
    case If(arms) => TailArms(arms, st, fuel);
    case With(size, body) =>
      var r := EvalExpr(size, st, fuel);
      if r.out.Yield? && r.out.v.IntV? {
        TailBlock(body, OpenArena(r.st, r.out.v.n), fuel);
      }
    case _ =>
  }

  lemma {:induction false} TailArms(arms: Arms, st: State, fuel: nat)
    ensures EvalArms(arms, st, fuel) == Dropped(EvalTailArms(arms, st, fuel))
    decreases arms, 0
  {
    hide EvalExpr, EvalStmt, EvalTail, EvalBlock, EvalTailBlock;
    match arms
    case NoElse =>
    case Else(last) => TailBranch(last, st, fuel);
    case Arm(cond, branch, others) =>
      var c := EvalExpr(cond, st, fuel);
      TailBranch(branch, c.st, fuel);
      TailArms(others, c.st, fuel);
  }

  lemma {:induction false} TailBranch(b: Branch, st: State, fuel: nat)
    ensures EvalBranch(b, st, fuel) == Dropped(EvalTailBranch(b, st, fuel))
    decreases b, 0
  {
    hide EvalStmt, EvalTail, EvalBlock, EvalTailBlock;
    match b
    case Block(stmts) => TailBlock(stmts, st, fuel);
    case Single(s) => TailStmt(s, st, fuel);
  }

  lemma {:induction false} TailBlock(stmts: seq<Stmt>, st: State, fuel: nat)
    ensures EvalBlock(stmts, st, fuel) == Dropped(EvalTailBlock(stmts, st, fuel))
    decreases stmts, 1
  {
    hide EvalStmts, EvalTailStmts;
    TailStmts(stmts, Push(st, map[]), fuel);
  }

  lemma {:induction false} TailStmts(stmts: seq<Stmt>, st: State, fuel: nat)
    ensures EvalStmts(stmts, st, fuel) == Dropped(EvalTailStmts(stmts, st, fuel))
    decreases stmts, 0
  {
    hide EvalStmt, EvalTail;
    if stmts != [] {
      var n := |stmts| - 1;
      assert stmts == stmts[..n] + [stmts[n]];
      SplitLast(stmts[..n], stmts[n], st, fuel);
      TailStmt(stmts[n], EvalStmts(stmts[..n], st, fuel).st, fuel);
    }
  }

  lemma {:induction false} SplitLast(stmts: seq<Stmt>, last: Stmt, st: State, fuel: nat)
    ensures EvalStmts(stmts + [last], st, fuel) ==
            (var r := EvalStmts(stmts, st, fuel); if r.out != Done then r else EvalStmt(last, r.st, fuel))
    decreases stmts
  {
    hide EvalStmt;
    if stmts == [] {
      assert ([last])[1..] == [];
    } else {
      assert (stmts + [last])[0] == stmts[0] && (stmts + [last])[1..] == stmts[1..] + [last];
      var r := EvalStmt(stmts[0], st, fuel);
      if r.out == Done {
        SplitLast(stmts[1..], last, r.st, fuel);
      }
    }
  }

  /** Some way through the statement ends in an expression. */
  predicate CarriesValue(s: Stmt)
    decreases s, 1
  {
    match s
    case Eval(_) => true
    case If(arms) => ArmsCarry(arms)
    case With(_, body) => ListCarries(body)
    case _ => false
  }

  predicate ArmsCarry(arms: Arms)
    decreases arms, 0
  {
    match arms
    case NoElse => false
    case Else(last) => BranchCarries(last)
    case Arm(_, branch, others) => BranchCarries(branch) || ArmsCarry(others)
  }

  predicate BranchCarries(b: Branch)
    decreases b, 0
  {
    match b
    case Block(stmts) => ListCarries(stmts)
    case Single(s) => CarriesValue(s)
  }

  predicate ListCarries(stmts: seq<Stmt>)
    decreases stmts, 0
  {
    stmts != [] && CarriesValue(stmts[|stmts| - 1])
  }

  /** Without such an expression there is no value. */
  lemma {:induction false} NoValue(s: Stmt, st: State, fuel: nat)
    requires !CarriesValue(s)
    ensures !EvalTail(s, st, fuel).out.Yield?
    decreases s, 1
  {
    hide EvalExpr, EvalStmts, EvalTailArms, EvalTailStmts;
    match s
    case If(arms) => NoValueArms(arms, st, fuel);
    case With(size, body) =>
      var r := EvalExpr(size, st, fuel);
      if r.out.Yield? && r.out.v.IntV? {
        NoValueList(body, Push(OpenArena(r.st, r.out.v.n), map[]), fuel);
      }
    case _ =>
  }

  lemma {:induction false} NoValueArms(arms: Arms, st: State, fuel: nat)
    requires !ArmsCarry(arms)
    ensures !EvalTailArms(arms, st, fuel).out.Yield?
    decreases arms, 0
  {
    hide EvalExpr, EvalTail, EvalTailStmts;
    match arms
    case NoElse =>
    case Else(last) => NoValueBranch(last, st, fuel);
    case Arm(cond, branch, others) =>
      var c := EvalExpr(cond, st, fuel);
      NoValueBranch(branch, c.st, fuel);
      NoValueArms(others, c.st, fuel);
  }

  lemma {:induction false} NoValueBranch(b: Branch, st: State, fuel: nat)
    requires !BranchCarries(b)
    ensures !EvalTailBranch(b, st, fuel).out.Yield?
    decreases b, 0
  {
    hide EvalTail, EvalTailStmts;
    match b
    case Block(stmts) => NoValueList(stmts, Push(st, map[]), fuel);
    case Single(s) => NoValue(s, st, fuel);
  }

  lemma {:induction false} NoValueList(stmts: seq<Stmt>, st: State, fuel: nat)
    requires !ListCarries(stmts)
    ensures !EvalTailStmts(stmts, st, fuel).out.Yield?
    decreases stmts, 0
  {
    hide EvalTail;
    if stmts != [] {
      NoValue(stmts[|stmts| - 1], EvalStmts(stmts[..|stmts| - 1], st, fuel).st, fuel);
    }
  }

  // ---------------------------------------------------------------- counters that wrap around

  function WithWrap(st: State): State {
    st.(wraps := true)
  }

  function Wrapping(r: Res): Res {
    r.(st := WithWrap(r.st))
  }

  /** `r` is the evaluation from `st`, and `q` the same one with counters that wrap around: they are the same unless the
      body of an inclusive loop has passed the largest integer, which no later step forgets. */
  predicate Fits(st: State, r: Res, q: Res) {
    && !r.st.wraps && (st.top != Below ==> r.st.top != Below) && (st.top == Passed ==> r.st.top == Passed)
    && (r.st.top != Passed ==> q == Wrapping(r))
  }

  lemma {:induction false} WrapExpr(e: Expr, st: State, fuel: nat)
    requires !st.wraps
    ensures Fits(st, EvalExpr(e, st, fuel), EvalExpr(e, WithWrap(st), fuel))
    decreases fuel, e, 0
  {
    hide EvalValueArms, Operate, OperateUnary;
    match e
    case Unary(_, e1) => WrapExpr(e1, st, fuel);
    case Binary(_, lhs, rhs) =>
      WrapExpr(lhs, st, fuel);
      WrapExpr(rhs, EvalExpr(lhs, st, fuel).st, fuel);
    case Logic(_, lhs, rhs) =>
      WrapExpr(lhs, st, fuel);
      WrapExpr(rhs, EvalExpr(lhs, st, fuel).st, fuel);
    case IfValue(arms) => WrapValueArms(arms, st, fuel);
    case _ =>
  }

  lemma {:induction false} WrapValueArms(arms: ValueArms, st: State, fuel: nat)
    requires !st.wraps
    ensures Fits(st, EvalValueArms(arms, st, fuel), EvalValueArms(arms, WithWrap(st), fuel))
    decreases fuel, arms, 0
  {
    hide EvalExpr, EvalValueBranch;
    match arms
    case ValueElse(last) => WrapValueBranch(last, st, fuel);
    case ValueArm(cond, branch, others) =>
      WrapExpr(cond, st, fuel);
      var c := EvalExpr(cond, st, fuel);
      WrapValueBranch(branch, c.st, fuel);
      WrapValueArms(others, c.st, fuel);
  }

  lemma {:induction false} WrapValueBranch(b: ValueBranch, st: State, fuel: nat)
    requires !st.wraps
    ensures Fits(st, EvalValueBranch(b, st, fuel), EvalValueBranch(b, WithWrap(st), fuel))
    decreases fuel, b, 0
  {
    hide EvalExpr, EvalStmts;
    match b
    case ValueExpr(e) => WrapExpr(e, st, fuel);
    case ValueBlock(stmts, e) =>
      WrapStmts(stmts, Push(st, map[]), fuel);
      WrapExpr(e, EvalStmts(stmts, Push(st, map[]), fuel).st, fuel);
  }

  lemma {:induction false} WrapStmts(stmts: seq<Stmt>, st: State, fuel: nat)
    requires !st.wraps
    ensures Fits(st, EvalStmts(stmts, st, fuel), EvalStmts(stmts, WithWrap(st), fuel))
    decreases fuel, stmts, 0
  {
    hide EvalStmt;
    if stmts != [] {
      WrapStmt(stmts[0], st, fuel);
      WrapStmts(stmts[1..], EvalStmt(stmts[0], st, fuel).st, fuel);
    }
  }

  lemma {:induction false} WrapBlock(stmts: seq<Stmt>, st: State, fuel: nat)
    requires !st.wraps
    ensures Fits(st, EvalBlock(stmts, st, fuel), EvalBlock(stmts, WithWrap(st), fuel))
    decreases fuel, stmts, 1
  {
    hide EvalStmts;
    WrapStmts(stmts, Push(st, map[]), fuel);
  }

  lemma {:induction false} WrapStmt(s: Stmt, st: State, fuel: nat)
    requires !st.wraps
    ensures Fits(st, EvalStmt(s, st, fuel), EvalStmt(s, WithWrap(st), fuel))
    decreases fuel, s, 1
  {
    hide EvalExpr, EvalPrint, EvalArms, EvalWhile, EvalLoop, EvalFor, EvalBlock, Operate, EnterFor;
    match s
    case Let(_, e) => WrapExpr(e, st, fuel);
    case Assign(x, aop, e) =>
      WrapExpr(e, st, fuel);
      WrapAssign(x, aop, EvalExpr(e, st, fuel));
      hide EvalAssign;
    case Eval(e) => WrapExpr(e, st, fuel);
    case Print(items) => WrapPrint(items, [], st, fuel);
    case Return(Result(e)) => WrapExpr(e, st, fuel);
    case If(arms) => WrapArms(arms, st, fuel);
    case While(_, _) => WrapWhile(s, st, fuel);
    case Loop(body) => WrapLoop(body, st, fuel);
    case For(x, inclusive, lo, hi, body) => WrapForStmt(s, st, fuel);
    case With(size, body) =>
      WrapExpr(size, st, fuel);
      var r := EvalExpr(size, st, fuel);
      if r.out.Yield? && r.out.v.IntV? {
        WrapBlock(body, OpenArena(r.st, r.out.v.n), fuel);
      }
    case _ =>
  }

  lemma WrapAssign(x: Name, aop: AssignOp, r: Res)
    requires !r.st.wraps
    ensures Fits(r.st, EvalAssign(x, aop, r), EvalAssign(x, aop, Wrapping(r)))
  {
    hide Operate;
  }

  lemma WrapEnter(st: State, inclusive: bool, hi: i64)
    requires !st.wraps
    ensures EnterFor(WithWrap(st), inclusive, hi) == WithWrap(EnterFor(st, inclusive, hi)) && !EnterFor(st, inclusive, hi).wraps
    ensures st.top != Below ==> EnterFor(st, inclusive, hi).top == st.top
  {
  }

  lemma {:induction false} WrapForStmt(s: Stmt, st: State, fuel: nat)
    requires s.For? && !st.wraps
    ensures Fits(st, EvalStmt(s, st, fuel), EvalStmt(s, WithWrap(st), fuel))
    decreases fuel, s, 0
  {
    hide EvalExpr, EvalFor, EnterFor;
    WrapExpr(s.lo, st, fuel);
    var l := EvalExpr(s.lo, st, fuel);
    if l.out.Yield? {
      WrapExpr(s.hi, l.st, fuel);
      var h := EvalExpr(s.hi, l.st, fuel);
      if h.out.Yield? && l.out.v.IntV? && h.out.v.IntV? {
        WrapEnter(h.st, s.inclusive, h.out.v.n);
        WrapFor(s.name, s.inclusive, l.out.v.n, h.out.v.n, s.body, EnterFor(h.st, s.inclusive, h.out.v.n), fuel);
      }
    }
  }

  lemma {:induction false} WrapPrint(items: seq<Item>, shown: seq<Shown>, st: State, fuel: nat)
    requires !st.wraps
    ensures Fits(st, EvalPrint(items, shown, st, fuel), EvalPrint(items, shown, WithWrap(st), fuel))
    decreases fuel, items, 0
  {
    hide EvalItem, Output;
    if items != [] {
      WrapItem(items[0], st, fuel);
      var r := EvalItem(items[0], st, fuel);
      match r.out {
        case Done => WrapPrint(items[1..], shown + [ShownText(items[0].s)], r.st, fuel);
        case Yield(v) => WrapPrint(items[1..], shown + [ShownValue(v)], r.st, fuel);
        case _ =>
      }
    }
  }

  lemma {:induction false} WrapItem(item: Item, st: State, fuel: nat)
    requires !st.wraps
    ensures Fits(st, EvalItem(item, st, fuel), EvalItem(item, WithWrap(st), fuel))
    decreases fuel, item, 0
  {
    hide EvalExpr;
    match item
    case Text(_) =>
    case Piece(e) => WrapExpr(e, st, fuel);
  }

  lemma {:induction false} WrapArms(arms: Arms, st: State, fuel: nat)
    requires !st.wraps
    ensures Fits(st, EvalArms(arms, st, fuel), EvalArms(arms, WithWrap(st), fuel))
    decreases fuel, arms, 0
  {
    hide EvalExpr, EvalBranch;
    match arms
    case NoElse =>
    case Else(last) => WrapBranch(last, st, fuel);
    case Arm(cond, branch, others) =>
      WrapExpr(cond, st, fuel);
      var c := EvalExpr(cond, st, fuel);
      WrapBranch(branch, c.st, fuel);
      WrapArms(others, c.st, fuel);
  }

  lemma {:induction false} WrapBranch(b: Branch, st: State, fuel: nat)
    requires !st.wraps
    ensures Fits(st, EvalBranch(b, st, fuel), EvalBranch(b, WithWrap(st), fuel))
    decreases fuel, b, 0
  {
    hide EvalBlock, EvalStmt;
    match b
    case Block(stmts) => WrapBlock(stmts, st, fuel);
    case Single(s) => WrapStmt(s, st, fuel);
  }

  lemma {:induction false} WrapWhile(loop: Stmt, st: State, fuel: nat)
    requires loop.While? && !st.wraps
    ensures Fits(st, EvalWhile(loop, st, fuel), EvalWhile(loop, WithWrap(st), fuel))
    decreases fuel, loop, 0
  {
    hide EvalExpr, EvalBlock;
    WrapExpr(loop.cond, st, fuel);
    var c := EvalExpr(loop.cond, st, fuel);
    if c.out.Yield? && c.out.v.BoolV? && c.out.v.b {
      WrapBlock(loop.body, c.st, fuel);
      var r := EvalBlock(loop.body, c.st, fuel);
      if fuel > 0 {
        WrapWhile(loop, r.st, fuel - 1);
      }
    }
  }

  lemma {:induction false} WrapLoop(body: seq<Stmt>, st: State, fuel: nat)
    requires !st.wraps
    ensures Fits(st, EvalLoop(body, st, fuel), EvalLoop(body, WithWrap(st), fuel))
    decreases fuel, body, 2
  {
    hide EvalBlock;
    WrapBlock(body, st, fuel);
    if fuel > 0 {
      WrapLoop(body, EvalBlock(body, st, fuel).st, fuel - 1);
    }
  }

  lemma {:induction false} WrapFor(x: Name, inclusive: bool, i: i64, hi: i64, body: seq<Stmt>, st: State, fuel: nat)
    requires !st.wraps
    ensures Fits(st, EvalFor(x, inclusive, i, hi, body, st, fuel), EvalFor(x, inclusive, i, hi, body, WithWrap(st), fuel))
    decreases fuel, body, 2
  {
    hide EvalStmts, NextFor;
    WrapStmts(body, Push(st, map[x := IntV(i)]), fuel);
    var r := Pop(EvalStmts(body, Push(st, map[x := IntV(i)]), fuel));
    WrapNext(x, inclusive, i, hi, body, r.st, fuel);
  }

  lemma {:induction false} WrapNext(x: Name, inclusive: bool, i: i64, hi: i64, body: seq<Stmt>, st: State, fuel: nat)
    requires !st.wraps
    ensures Fits(st, NextFor(x, inclusive, i, hi, body, st, fuel), NextFor(x, inclusive, i, hi, body, WithWrap(st), fuel))
    decreases fuel, body, 1
  {
    hide EvalFor, Wrap;
    if i < I64_MAX && fuel > 0 {
      WrapFor(x, inclusive, Wrap(i + 1), hi, body, st, fuel - 1);
    }
  }
}
