/** What each step of the emitter adds (crates/llvm_poc/src/emit.rs), as functions on the emitter's state. */
module EmitSpec {
  import opened Wrappers
  import opened UbelSyntax
  import opened BlockCode
  import opened UbelSource

  /** The result of an emitting step: a refused program has none. */
  datatype R<+T> = Err | Ok(value: T) {
    predicate IsFailure() {
      Err?
    }

    function PropagateFailure<U>(): R<U>
      requires Err?
    {
      R.Err
    }

    function Extract(): T
      requires Ok?
    {
      value
    }
  }

  datatype Local = Local(slot: Slot, ty: Ty)

  /** `depth` is the number of arenas open when the loop body began. */
  datatype LoopCtx = LoopCtx(cont: Label, brk: Label, depth: nat)

  /** The per-function state of the emitter. */
  datatype Em = Em(
    body: Code,
    tmp: nat,
    lbl: nat,
    terminated: bool,
    scopes: seq<map<Name, Local>>,
    loops: seq<LoopCtx>,
    arenas: seq<Reg>,
    ret: Ty)

  // ---------------------------------------------------------------- low-level emission

  function AppendLine(s: Em, line: Line): Em {
    s.(body := s.body + [line])
  }

  /** Starts the block `l`, falling through to it from a block that is still open. */
  function Begin(s: Em, l: Label): Em {
    var open := if s.terminated then s else AppendLine(s, TermLine(Br(l)));
    AppendLine(open, LabelLine(l)).(terminated := false)
  }

  /** Code after a terminator goes into a fresh block. */
  function OpenIfDead(s: Em): Em {
    if s.terminated then Begin(s.(lbl := s.lbl + 1), s.lbl + 1) else s
  }

  function Instr(s: Em, i: Inst): Em {
    AppendLine(OpenIfDead(s), InstLine(i))
  }

  function Terminate(s: Em, t: Term): Em {
    AppendLine(OpenIfDead(s), TermLine(t)).(terminated := true)
  }

  /** Reserves the next `n` register and slot numbers. */
  function Fresh(s: Em, n: nat): Em {
    s.(tmp := s.tmp + n)
  }

  function NewLabels(s: Em, n: nat): Em {
    s.(lbl := s.lbl + n)
  }

  function PushScope(s: Em): Em {
    s.(scopes := s.scopes + [map[]])
  }

  function PopScope(s: Em): Em {
    if s.scopes == [] then s else s.(scopes := s.scopes[..|s.scopes| - 1])
  }

  /** A new stack slot for `x` in the innermost scope; the slot is number `s.tmp + 1`. */
  function DeclareLocal(s: Em, x: Name, ty: Ty): Em {
    var s1 := Fresh(s, 1);
    if s.scopes == [] then s1
    else
      var k := |s.scopes| - 1;
      s1.(scopes := s.scopes[k := s.scopes[k][x := Local(s1.tmp, ty)]])
  }

  function FindLocal(scopes: seq<map<Name, Local>>, x: Name): Option<Local> {
    if scopes == [] then None
    else
      var k := |scopes| - 1;
      if x in scopes[k] then Some(scopes[k][x]) else FindLocal(scopes[..k], x)
  }

  function DestroyDown(s: Em, k: nat, depth: nat): Em
    requires k <= |s.arenas|
    decreases k
  {
    if k <= depth then s else DestroyDown(Instr(s, ArenaDestroy(s.arenas[k - 1])), k - 1, depth)
  }

  /** Destroys the open arenas from the innermost out to number `depth`. */
  function DestroyArenasFrom(s: Em, depth: nat): Em {
    DestroyDown(s, |s.arenas|, depth)
  }

  // ---------------------------------------------------------------- expressions

  /** An emitted value: the state after it, its operand and its type. */
  datatype Emitted = Emitted(s: Em, v: Operand, ty: Ty)

  const ZERO := Const(IntV(0))

  function EmitExpr(s: Em, e: Expr): R<Emitted>
    decreases e, 1
  {
    match e
    case IntLit(n) => Ok(Emitted(s, Const(IntV(n)), I64))
    case BoolLit(b) => Ok(Emitted(s, Const(BoolV(b)), I1))
    case Var(x) =>
      (match FindLocal(s.scopes, x)
       case None => R.Err
       case Some(l) =>
         var s1 := Fresh(s, 1);
         Ok(Emitted(Instr(s1, Load(s1.tmp, l.slot)), Reg(s1.tmp), l.ty)))
    case Unary(op, e1) =>
      var v :- EmitExpr(s, e1);
      EmitUnary(v, op)
    case Binary(op, lhs, rhs) =>
      var l :- EmitExpr(s, lhs);
      var r :- EmitExpr(l.s, rhs);
      EmitBinop(r.s, op, l.v, l.ty, r.v, r.ty)
    case Logic(_, _, _) => EmitLogic(s, e)
    case IfValue(arms) =>
      var end := s.lbl + 1;
      var a :- EmitValueArms(NewLabels(s, 1), arms, end, None);
      Ok(LoadFrom(Begin(a.0, end), a.1.slot, a.1.ty))
  }

  function EmitUnary(v: Emitted, op: UnaryOp): R<Emitted> {
    var s := Fresh(v.s, 1);
    match op
    case Neg => if v.ty == I64 then Ok(Emitted(Instr(s, Arith(s.tmp, Sub, ZERO, v.v)), Reg(s.tmp), I64)) else R.Err
    case BitNot =>
      if v.ty == I64 then Ok(Emitted(Instr(s, Arith(s.tmp, BitXor, v.v, Const(IntV(-1)))), Reg(s.tmp), I64)) else R.Err
    case Not =>
      if v.ty == I1 then Ok(Emitted(Instr(s, Arith(s.tmp, BitXor, v.v, Const(BoolV(true)))), Reg(s.tmp), I1)) else R.Err
  }

  function EmitBinop(s: Em, op: BinOp, l: Operand, lty: Ty, r: Operand, rty: Ty): R<Emitted> {
    var s1 := Fresh(s, 1);
    var t := s1.tmp;
    if lty != rty || lty == Void then R.Err
    else
      match op
      case BitAnd => Ok(Emitted(Instr(s1, Arith(t, op, l, r)), Reg(t), lty))
      case BitOr => Ok(Emitted(Instr(s1, Arith(t, op, l, r)), Reg(t), lty))
      case BitXor => Ok(Emitted(Instr(s1, Arith(t, op, l, r)), Reg(t), lty))
      case Eq => Ok(Emitted(Instr(s1, Arith(t, op, l, r)), Reg(t), I1))
      case Ne => Ok(Emitted(Instr(s1, Arith(t, op, l, r)), Reg(t), I1))
      case Div => if lty == I64 then Ok(EmitDivision(s1, op, l, r)) else R.Err
      case Rem => if lty == I64 then Ok(EmitDivision(s1, op, l, r)) else R.Err
      case _ =>
        if lty != I64 then R.Err
        else Ok(Emitted(Instr(s1, Arith(t, op, l, r)), Reg(t), if op in {Lt, Le, Gt, Ge} then I1 else I64))
  }

  /** A division guarded by a test for zero; its result register is `s.tmp`. */
  function EmitDivision(s: Em, op: BinOp, l: Operand, r: Operand): Emitted {
    var guarded := DivisionGuard(s, r);
    Emitted(Instr(guarded, Arith(s.tmp, op, l, r)), Reg(s.tmp), I64)
  }

  function DivisionGuard(s: Em, r: Operand): Em {
    var zero := s.tmp + 1;
    var s1 := NewLabels(Instr(Fresh(s, 1), Arith(zero, Eq, r, ZERO)), 2);
    var bad, ok := s1.lbl - 1, s1.lbl;
    var s2 := Begin(Terminate(s1, CondBr(Reg(zero), bad, ok)), bad);
    Begin(Terminate(Instr(s2, CallTrap(DivZero)), Unreachable), ok)
  }

  /** `&&` and `||`: the result lives in a slot, and the right operand in a block of its own. */
  function EmitLogic(s: Em, e: Expr): R<Emitted>
    requires e.Logic?
    decreases e, 0
  {
    var slot := s.tmp + 1;
    var l :- EmitExpr(Fresh(s, 1), e.lhs);
    if l.ty != I1 then R.Err
    else
      var stored := Instr(l.s, Store(l.v, slot));
      var end := stored.lbl + 2;
      var r :- EmitExpr(SplitLogic(stored, e.isAnd, l.v), e.rhs);
      if r.ty != I1 then R.Err
      else
        var joined := Begin(Terminate(Instr(r.s, Store(r.v, slot)), Br(end)), end);
        Ok(LoadFrom(joined, slot, I1))
  }

  function SplitLogic(s: Em, isAnd: bool, v: Operand): Em {
    var rhs, end := s.lbl + 1, s.lbl + 2;
    Begin(Terminate(NewLabels(s, 2), if isAnd then CondBr(v, rhs, end) else CondBr(v, end, rhs)), rhs)
  }

  function LoadFrom(s: Em, slot: Slot, ty: Ty): Emitted {
    var s1 := Fresh(s, 1);
    Emitted(Instr(s1, Load(s1.tmp, slot)), Reg(s1.tmp), ty)
  }

  /** The arms of a value-`if`; every branch stores into one slot, which the first branch creates. */
  function EmitValueArms(s: Em, arms: ValueArms, end: Label, slot: Option<Local>): R<(Em, Local)>
    decreases arms, 0
  {
    match arms
    case ValueElse(last) => EmitValueBranch(s, last, slot)
    case ValueArm(cond, branch, others) =>
      var c :- EmitExpr(s, cond);
      if c.ty != I1 then R.Err
      else
        var els := c.s.lbl + 2;
        var b :- EmitValueBranch(OpenThen(c), branch, slot);
        EmitValueArms(Begin(EndBranch(b.0, end), els), others, end, Some(b.1))
  }

  /** Branches on a condition to two new blocks and starts the first; the second is label `c.s.lbl + 2`. */
  function OpenThen(c: Emitted): Em {
    var s := NewLabels(c.s, 2);
    Begin(Terminate(s, CondBr(c.v, s.lbl - 1, s.lbl)), s.lbl - 1)
  }

  /** Leaves a branch that is still open. */
  function EndBranch(s: Em, end: Label): Em {
    if s.terminated then s else Terminate(s, Br(end))
  }

  function EmitValueBranch(s: Em, b: ValueBranch, slot: Option<Local>): R<(Em, Local)>
    decreases b, 0
  {
    match b
    case ValueExpr(e) =>
      var v :- EmitExpr(s, e);
      StoreBranchValue(v, slot)
    case ValueBlock(stmts, e) =>
      var s1 :- EmitStmts(PushScope(s), stmts);
      var v :- EmitExpr(s1, e);
      var r :- StoreBranchValue(v, slot);
      Ok((PopScope(r.0), r.1))
  }

  function StoreBranchValue(v: Emitted, slot: Option<Local>): R<(Em, Local)> {
    if v.ty == Void then R.Err
    else
      match slot
      case Some(l) => if l.ty != v.ty then R.Err else Ok((Instr(v.s, Store(v.v, l.slot)), l))
      case None =>
        var s := Fresh(v.s, 1);
        Ok((Instr(s, Store(v.v, s.tmp)), Local(s.tmp, v.ty)))
  }

  // ---------------------------------------------------------------- statements

  function EmitStmts(s: Em, stmts: seq<Stmt>): R<Em>
    decreases stmts, 0
  {
    if stmts == [] then Ok(s)
    else
      var s1 :- EmitStmt(s, stmts[0]);
      EmitStmts(s1, stmts[1..])
  }

  function EmitBlock(s: Em, stmts: seq<Stmt>): R<Em>
    decreases stmts, 1
  {
    var s1 :- EmitStmts(PushScope(s), stmts);
    Ok(PopScope(s1))
  }

  function EmitStmt(s: Em, st: Stmt): R<Em>
    decreases st, 1
  {
    match st
    case Let(x, e) =>
      var v :- EmitExpr(s, e);
      if v.ty == Void then R.Err else Ok(StoreNew(v, x))
    case Assign(x, aop, e) =>
      (match FindLocal(s.scopes, x)
       case None => R.Err
       case Some(l) =>
         var v :- EmitExpr(s, e);
         EmitAssign(v, l, aop))
    case Eval(e) =>
      var v :- EmitExpr(s, e);
      Ok(v.s)
    case Print(items) => EmitPrint(s, items, [])
    case Return(NoResult) => if s.ret == Void then Ok(Terminate(DestroyArenasFrom(s, 0), Ret([]))) else R.Err
    case Return(Result(e)) =>
      var v :- EmitExpr(s, e);
      DoReturn(v)
    case If(arms) =>
      var end := s.lbl + 1;
      var s1 :- EmitArms(NewLabels(s, 1), arms, end);
      Ok(Begin(s1, end))
    case While(_, _) => EmitWhile(s, st)
    case Loop(body) => EmitLoop(s, body)
    case For(x, inclusive, lo, hi, body) =>
      var l :- EmitExpr(s, lo);
      if l.ty != I64 then R.Err
      else
        var h :- EmitExpr(l.s, hi);
        if h.ty != I64 then R.Err else EmitFor(h.s, x, inclusive, l.v, h.v, body)
    case Break =>
      if s.loops == [] then R.Err
      else
        var ctx := s.loops[|s.loops| - 1];
        Ok(Terminate(DestroyArenasFrom(s, ctx.depth), Br(ctx.brk)))
    case Continue =>
      if s.loops == [] then R.Err
      else
        var ctx := s.loops[|s.loops| - 1];
        Ok(Terminate(DestroyArenasFrom(s, ctx.depth), Br(ctx.cont)))
    case With(size, body) =>
      var v :- EmitExpr(s, size);
      if v.ty != I64 then R.Err
      else
        var s1 :- EmitBlock(CreateArena(v), body);
        Ok(LeaveArena(s1))
  }

  function StoreNew(v: Emitted, x: Name): Em {
    var s := DeclareLocal(v.s, x, v.ty);
    Instr(s, Store(v.v, s.tmp))
  }

  function EmitAssign(v: Emitted, l: Local, aop: AssignOp): R<Em> {
    match aop
    case Plain => if v.ty != l.ty then R.Err else Ok(Instr(v.s, Store(v.v, l.slot)))
    case Compound(op) =>
      if op in {Eq, Ne, Lt, Le, Gt, Ge} then R.Err
      else
        var cur := LoadFrom(v.s, l.slot, l.ty);
        var r :- EmitBinop(cur.s, op, cur.v, cur.ty, v.v, v.ty);
        Ok(Instr(r.s, Store(r.v, l.slot)))
  }

  function DoReturn(v: Emitted): R<Em> {
    if v.s.ret != Void && v.ty == v.s.ret then Ok(Terminate(DestroyArenasFrom(v.s, 0), Ret([v.v]))) else R.Err
  }

  function CreateArena(v: Emitted): Em {
    var s := Fresh(v.s, 1);
    var created := Instr(s, ArenaCreate(s.tmp, v.v));
    created.(arenas := created.arenas + [s.tmp])
  }

  /** Destroys the innermost arena unless every way out of its block has done so, and forgets it. */
  function LeaveArena(s: Em): Em {
    if s.arenas == [] then s
    else
      var k := |s.arenas| - 1;
      var s1 := if s.terminated then s else Instr(s, ArenaDestroy(s.arenas[k]));
      s1.(arenas := s1.arenas[..k])
  }

  /** A piece to print whose value has been emitted. */
  datatype Ready = ReadyText(s: string) | ReadyValue(v: Operand, ty: Ty)

  function EmitPrint(s: Em, items: seq<Item>, ready: seq<Ready>): R<Em>
    decreases items, 0
  {
    if items == [] then Ok(EmitReady(s, ready))
    else
      var item := items[0];
      var r :- EmitItem(s, item);
      EmitPrint(r.0, items[1..], ready + [r.1])
  }

  function EmitItem(s: Em, item: Item): R<(Em, Ready)>
    decreases item, 0
  {
    match item
    case Text(t) => Ok((s, ReadyText(t)))
    case Piece(e) =>
      var v :- EmitExpr(s, e);
      if v.ty == Void then R.Err else Ok((v.s, ReadyValue(v.v, v.ty)))
  }

  function EmitReady(s: Em, ready: seq<Ready>): Em
    decreases |ready|
  {
    if ready == [] then s else EmitReady(PrintReady(s, ready[0]), ready[1..])
  }

  function PrintReady(s: Em, r: Ready): Em {
    match r
    case ReadyText(t) => if t == "" then s else Instr(s, PrintStr(t))
    case ReadyValue(v, ty) =>
      if ty == I64 then Instr(s, PrintI64(v))
      else
        var s1 := Fresh(s, 1);
        Instr(Instr(s1, Zext(s1.tmp, v)), PrintBool(Reg(s1.tmp)))
  }

  function EmitArms(s: Em, arms: Arms, end: Label): R<Em>
    decreases arms, 0
  {
    match arms
    case NoElse => Ok(s)
    case Else(last) => EmitBranch(s, last)
    case Arm(cond, branch, others) =>
      var c :- EmitExpr(s, cond);
      if c.ty != I1 then R.Err
      else
        var els := c.s.lbl + 2;
        var b :- EmitBranch(OpenThen(c), branch);
        EmitArms(Begin(EndBranch(b, end), els), others, end)
  }

  function EmitBranch(s: Em, b: Branch): R<Em>
    decreases b, 0
  {
    match b
    case Block(stmts) => EmitBlock(s, stmts)
    case Single(st) => if st.Eval? || st.Assign? || st.Print? then EmitStmt(s, st) else R.Err
  }

  function PushLoop(s: Em, cont: Label, brk: Label): Em {
    s.(loops := s.loops + [LoopCtx(cont, brk, |s.arenas|)])
  }

  function PopLoop(s: Em): Em {
    if s.loops == [] then s else s.(loops := s.loops[..|s.loops| - 1])
  }

  /** Labels `s.lbl + 1` (condition), `+ 2` (body) and `+ 3` (end). */
  function EmitWhile(s: Em, st: Stmt): R<Em>
    requires st.While?
    decreases st, 0
  {
    var condL, bodyL, endL := s.lbl + 1, s.lbl + 2, s.lbl + 3;
    var c :- EmitExpr(Begin(Terminate(NewLabels(s, 3), Br(condL)), condL), st.cond);
    if c.ty != I1 then R.Err
    else
      var s1 := Begin(Terminate(c.s, CondBr(c.v, bodyL, endL)), bodyL);
      var s2 :- EmitBlock(PushLoop(s1, condL, endL), st.body);
      Ok(Begin(EndBranch(PopLoop(s2), condL), endL))
  }

  /** Labels `s.lbl + 1` (body) and `+ 2` (end). */
  function EmitLoop(s: Em, body: seq<Stmt>): R<Em>
    decreases body, 2
  {
    var bodyL, endL := s.lbl + 1, s.lbl + 2;
    var s1 := Begin(Terminate(NewLabels(s, 2), Br(bodyL)), bodyL);
    var s2 :- EmitBlock(PushLoop(s1, bodyL, endL), body);
    Ok(Begin(EndBranch(PopLoop(s2), bodyL), endL))
  }

  /** The counter and the limit are slots `s.tmp + 1` and `s.tmp + 2`. */
  function EmitFor(s: Em, x: Name, inclusive: bool, lo: Operand, hi: Operand, body: seq<Stmt>): R<Em>
    decreases body, 2
  {
    var counter, limit := s.tmp + 1, s.tmp + 2;
    var s1 := Instr(Instr(Fresh(s, 2), Store(lo, counter)), Store(hi, limit));
    var incL, endL := s1.lbl + 3, s1.lbl + 4;
    var s2 := ForHead(s1, inclusive, counter, limit);
    var s3 :- EmitStmts(ForBody(s2, x, counter, incL, endL), body);
    Ok(ForTail(PopLoop(PopScope(s3)), counter, s1.lbl + 1, incL, endL))
  }

  /** The loop test, up to the start of the body block: labels `s.lbl + 1` (test), `+ 2` (body),
      `+ 3` (increment) and `+ 4` (end). */
  function ForHead(s: Em, inclusive: bool, counter: Slot, limit: Slot): Em {
    var s1 := Begin(Terminate(NewLabels(s, 4), Br(s.lbl + 1)), s.lbl + 1);
    var t := ForTest(s1, inclusive, counter, limit);
    Begin(Terminate(t.s, CondBr(t.v, s.lbl + 2, s.lbl + 4)), s.lbl + 2)
  }

  function ForTest(s: Em, inclusive: bool, counter: Slot, limit: Slot): Emitted {
    var i := LoadFrom(s, counter, I64);
    var h := LoadFrom(i.s, limit, I64);
    var s1 := Fresh(h.s, 1);
    Emitted(Instr(s1, Arith(s1.tmp, if inclusive then Le else Lt, i.v, h.v)), Reg(s1.tmp), I1)
  }

  /** Enters the body: the loop variable gets a slot of its own and the counter's value. */
  function ForBody(s: Em, x: Name, counter: Slot, inc: Label, end: Label): Em {
    var s1 := DeclareLocal(PushScope(PushLoop(s, inc, end)), x, I64);
    var cur := LoadFrom(s1, counter, I64);
    Instr(cur.s, Store(cur.v, s1.tmp))
  }

  /** The increment block, and the end. */
  function ForTail(s: Em, counter: Slot, cond: Label, inc: Label, end: Label): Em {
    Begin(Terminate(ForStep(Begin(EndBranch(s, inc), inc), counter), Br(cond)), end)
  }

  function ForStep(s: Em, counter: Slot): Em {
    var cur := LoadFrom(s, counter, I64);
    var s1 := Fresh(cur.s, 1);
    Instr(Instr(s1, Arith(s1.tmp, Add, cur.v, Const(IntV(1)))), Store(Reg(s1.tmp), counter))
  }

  // ---------------------------------------------------------------- functions

  /** An expression used as a statement; the other statements have keywords of their own. */
  predicate IsExprStmt(st: Stmt) {
    st.Eval? || st.Assign? || st.Print?
  }

  /** The statements of a body. In a function with a result type, the last expression is its result if
      its type agrees; otherwise the expression is emitted a second time, as a statement. */
  function LowerBody(s: Em, stmts: seq<Stmt>): R<Em> {
    if stmts == [] then Ok(s)
    else
      var n := |stmts| - 1;
      var s1 :- EmitStmts(s, stmts[..n]);
      if s1.ret == Void || !IsExprStmt(stmts[n]) then EmitStmt(s1, stmts[n])
      else if stmts[n].Eval? then
        var v :- EmitExpr(s1, stmts[n].e);
        if v.ty == v.s.ret then DoReturn(v) else EmitStmt(v.s, stmts[n])
      else
        var s2 :- EmitStmt(s1, stmts[n]);
        EmitStmt(s2, stmts[n])
  }

  function EndBody(s: Em): Em {
    if s.terminated then s
    else if s.ret == Void then Terminate(s, Ret([]))
    else Terminate(Instr(s, CallTrap(NoReturn)), Unreachable)
  }

  const EMPTY_EM := Em([], 0, 0, false, [map[]], [], [], Void)

  /** Parameter `i` arrives in register `-1 - i` and is stored in a slot. */
  function EmitParams(s: Em, params: seq<(Name, Ty)>, i: nat): Em
    requires i <= |params|
    decreases |params| - i
  {
    if i == |params| then s
    else
      var s1 := DeclareLocal(s, params[i].0, params[i].1);
      EmitParams(Instr(s1, Store(Reg(-1 - i), s1.tmp)), params, i + 1)
  }

  function EmitFunction(f: Function): R<Code> {
    var s := EmitParams(EMPTY_EM.(ret := f.ret), f.params, 0);
    var s1 :- LowerBody(s, f.body);
    Ok(EndBody(s1).body)
  }
}
