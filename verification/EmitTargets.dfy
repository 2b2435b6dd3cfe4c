/** Every label that emitted code branches to is placed in it. */
module EmitTargets {
  import opened Wrappers
  import opened UbelSyntax
  import opened UbelSource
  import opened BlockCode
  import opened EmitSpec
  import opened EmitStatic
  import opened EmitKeeps
  import opened EmitSteps

  function Targets(t: Term): set<Label> {
    match t
    case Br(l) => {l}
    case CondBr(_, yes, no) => {yes, no}
    case _ => {}
  }

  /** The labels branched to are placed, or are among the labels still to be placed. */
  ghost predicate Owed(body: Code, owed: set<Label>) {
    forall t, l :: TermLine(t) in body && l in Targets(t) ==> LabelLine(l) in body || l in owed
  }

  /** The enclosing loops, and labels that code to come may branch to. */
  datatype Known = Known(loops: seq<LoopCtx>, labels: set<Label>)

  ghost predicate LoopsIn(loops: seq<LoopCtx>, labels: set<Label>) {
    forall c :: c in loops ==> c.cont in labels && c.brk in labels
  }

  /** Every known label is placed, or is among the labels still to be placed. */
  ghost predicate Owes(k: Known, s: Em, owed: set<Label>) {
    && s.loops == k.loops && LoopsIn(k.loops, k.labels) && Owed(s.body, owed)
    && forall l :: l in k.labels ==> LabelLine(l) in s.body || l in owed
  }

  lemma OwedMore(body: Code, line: Line, owed: set<Label>)
    requires Owed(body, owed)
    requires line.TermLine? ==> forall l :: l in Targets(line.t) ==> l in owed || LabelLine(l) in body
    ensures Owed(body + [line], owed)
  {
  }

  lemma OwedPlaced(body: Code, l: Label, owed: set<Label>)
    requires Owed(body, owed + {l})
    ensures Owed(body + [LabelLine(l)], owed)
  {
  }

  lemma OwesWider(k: Known, s: Em, owed: set<Label>, more: set<Label>)
    requires Owes(k, s, owed) && owed <= more
    ensures Owes(k, s, more)
  {
  }

  lemma OwesContext(k: Known, s: Em, s': Em, owed: set<Label>)
    requires Owes(k, s, owed) && s'.body == s.body && s'.loops == s.loops
    ensures Owes(k, s', owed)
  {
  }

  lemma BeginOwes(k: Known, s: Em, l: Label, owed: set<Label>)
    requires Owes(k, s, owed + {l})
    ensures Owes(k, Begin(s, l), owed)
  {
    hide Owed, LoopsIn;
    if s.terminated {
      OwedPlaced(s.body, l, owed);
    } else {
      OwedMore(s.body, TermLine(Br(l)), owed + {l});
      OwedPlaced(s.body + [TermLine(Br(l))], l, owed);
    }
  }

  lemma OpenOwes(k: Known, s: Em, owed: set<Label>)
    requires Owes(k, s, owed)
    ensures Owes(k, OpenIfDead(s), owed)
  {
    hide LoopsIn, Owed, Begin;
    if s.terminated {
      OwesWider(k, s, owed, owed + {s.lbl + 1});
      BeginOwes(k, NewLabels(s, 1), s.lbl + 1, owed);
    }
  }

  lemma InstrOwes(k: Known, s: Em, i: Inst, owed: set<Label>)
    requires Owes(k, s, owed)
    ensures Owes(k, Instr(s, i), owed)
  {
    hide LoopsIn, OpenIfDead, Owed;
    OpenOwes(k, s, owed);
    OwedMore(OpenIfDead(s).body, InstLine(i), owed);
  }

  lemma TermOwes(k: Known, s: Em, t: Term, owed: set<Label>)
    requires Owes(k, s, owed) && Targets(t) <= owed + k.labels
    ensures Owes(k, Terminate(s, t), owed)
  {
    hide LoopsIn, OpenIfDead, Owed;
    OpenOwes(k, s, owed);
    OwedMore(OpenIfDead(s).body, TermLine(t), owed);
  }

  /** A block is ended and label `l` placed; the labels in `more` stay to be placed. */
  lemma TurnOwes(k: Known, s: Em, t: Term, l: Label, owed: set<Label>, more: set<Label>)
    requires Owes(k, s, owed) && owed <= more + {l} && Targets(t) <= more + {l} + k.labels
    ensures Owes(k, Begin(Terminate(s, t), l), more)
  {
    hide Owes, Begin, Terminate;
    OwesWider(k, s, owed, more + {l});
    TermOwes(k, s, t, more + {l});
    BeginOwes(k, Terminate(s, t), l, more);
  }

  lemma LoadOwes(k: Known, s: Em, slot: Slot, ty: Ty, owed: set<Label>)
    requires Owes(k, s, owed)
    ensures Owes(k, LoadFrom(s, slot, ty).s, owed)
  {
    hide LoopsIn, Owed, Instr;
    InstrOwes(k, Fresh(s, 1), Load(s.tmp + 1, slot), owed);
  }

  // ---------------------------------------------------------------- expressions

  lemma {:induction false} ExprOwes(k: Known, s: Em, e: Expr, owed: set<Label>)
    requires Owes(k, s, owed) && EmitExpr(s, e).Ok?
    ensures Owes(k, EmitExpr(s, e).value.s, owed)
    decreases e, 1
  {
    hide Owes, Begin, Instr, Terminate, EmitLogic, EmitUnary, EmitBinop;
    match e
    case IntLit(_) =>
    case BoolLit(_) =>
    case Var(x) =>
      var l := FindLocal(s.scopes, x).value;
      LoadOwes(k, s, l.slot, l.ty, owed);
    case Unary(op, e1) =>
      ExprOwes(k, s, e1, owed);
      UnaryOwes(k, EmitExpr(s, e1).value, op, owed);
    case Binary(op, lhs, rhs) =>
      ExprOwes(k, s, lhs, owed);
      var l := EmitExpr(s, lhs).value;
      ExprOwes(k, l.s, rhs, owed);
      var r := EmitExpr(l.s, rhs).value;
      BinopOwes(k, r.s, op, l.v, l.ty, r.v, r.ty, owed);
    case Logic(_, _, _) => LogicOwes(k, s, e, owed);
    case IfValue(arms) =>
      var end := s.lbl + 1;
      OwesContext(k, s, NewLabels(s, 1), owed);
      OwesWider(k, NewLabels(s, 1), owed, owed + {end});
      ValueArmsOwes(k, NewLabels(s, 1), arms, end, None, owed + {end});
      var a := EmitValueArms(NewLabels(s, 1), arms, end, None).value;
      BeginOwes(k, a.0, end, owed);
      LoadOwes(k, Begin(a.0, end), a.1.slot, a.1.ty, owed);
  }

  lemma UnaryOwes(k: Known, v: Emitted, op: UnaryOp, owed: set<Label>)
    requires Owes(k, v.s, owed) && EmitUnary(v, op).Ok?
    ensures Owes(k, EmitUnary(v, op).value.s, owed)
  {
    hide Owes, Instr;
    OwesContext(k, v.s, Fresh(v.s, 1), owed);
    var s := Fresh(v.s, 1);
    match op
    case Neg => InstrOwes(k, s, Arith(s.tmp, Sub, ZERO, v.v), owed);
    case BitNot => InstrOwes(k, s, Arith(s.tmp, BitXor, v.v, Const(IntV(-1))), owed);
    case Not => InstrOwes(k, s, Arith(s.tmp, BitXor, v.v, Const(BoolV(true))), owed);
  }

  lemma BinopOwes(k: Known, s: Em, op: BinOp, l: Operand, lty: Ty, r: Operand, rty: Ty, owed: set<Label>)
    requires Owes(k, s, owed) && EmitBinop(s, op, l, lty, r, rty).Ok?
    ensures Owes(k, EmitBinop(s, op, l, lty, r, rty).value.s, owed)
  {
    hide Owes, Instr, DivisionGuard;
    OwesContext(k, s, Fresh(s, 1), owed);
    var s1 := Fresh(s, 1);
    if op == Div || op == Rem {
      GuardOwes(k, s1, r, owed);
      InstrOwes(k, DivisionGuard(s1, r), Arith(s1.tmp, op, l, r), owed);
    } else {
      InstrOwes(k, s1, Arith(s1.tmp, op, l, r), owed);
    }
  }

  lemma GuardOwes(k: Known, s: Em, r: Operand, owed: set<Label>)
    requires Owes(k, s, owed)
    ensures Owes(k, DivisionGuard(s, r), owed)
  {
    hide Owes, Instr, Begin, Terminate;
    OwesContext(k, s, Fresh(s, 1), owed);
    var test := Arith(s.tmp + 1, Eq, r, ZERO);
    var i := Instr(Fresh(s, 1), test);
    InstrOwes(k, Fresh(s, 1), test, owed);
    OwesContext(k, i, NewLabels(i, 2), owed);
    var bad, ok := i.lbl + 1, i.lbl + 2;
    TurnOwes(k, NewLabels(i, 2), CondBr(Reg(s.tmp + 1), bad, ok), bad, owed, owed + {ok});
    var b := Begin(Terminate(NewLabels(i, 2), CondBr(Reg(s.tmp + 1), bad, ok)), bad);
    InstrOwes(k, b, CallTrap(DivZero), owed + {ok});
    TurnOwes(k, Instr(b, CallTrap(DivZero)), Unreachable, ok, owed + {ok}, owed);
  }

  lemma {:induction false} LogicOwes(k: Known, s: Em, e: Expr, owed: set<Label>)
    requires Owes(k, s, owed) && e.Logic? && EmitLogic(s, e).Ok?
    ensures Owes(k, EmitLogic(s, e).value.s, owed)
    decreases e, 0
  {
    hide Owes, Instr, Begin, Terminate, EmitExpr, LoadFrom;
    var slot, f := s.tmp + 1, Fresh(s, 1);
    OwesContext(k, s, f, owed);
    ExprOwes(k, f, e.lhs, owed);
    var l := EmitExpr(f, e.lhs).value;
    var stored := Instr(l.s, Store(l.v, slot));
    InstrOwes(k, l.s, Store(l.v, slot), owed);
    var rhs, end := stored.lbl + 1, stored.lbl + 2;
    OwesContext(k, stored, NewLabels(stored, 2), owed);
    TurnOwes(k, NewLabels(stored, 2), if e.isAnd then CondBr(l.v, rhs, end) else CondBr(l.v, end, rhs), rhs, owed, owed + {end});
    var split := SplitLogic(stored, e.isAnd, l.v);
    ExprOwes(k, split, e.rhs, owed + {end});
    var r := EmitExpr(split, e.rhs).value;
    InstrOwes(k, r.s, Store(r.v, slot), owed + {end});
    var last := Instr(r.s, Store(r.v, slot));
    TurnOwes(k, last, Br(end), end, owed + {end}, owed);
    LoadOwes(k, Begin(Terminate(last, Br(end)), end), slot, I1, owed);
  }

  lemma OpenThenOwes(k: Known, c: Emitted, owed: set<Label>)
    requires Owes(k, c.s, owed)
    ensures Owes(k, OpenThen(c), owed + {c.s.lbl + 2})
  {
    hide Owes, Begin, Terminate;
    var s, els := NewLabels(c.s, 2), c.s.lbl + 2;
    OwesContext(k, c.s, s, owed);
    TurnOwes(k, s, CondBr(c.v, els - 1, els), els - 1, owed, owed + {els});
  }

  /** A branch goes to `end`, which is still to be placed, and the next label is placed. */
  lemma NextOwes(k: Known, b: Em, end: Label, els: Label, owed: set<Label>)
    requires Owes(k, b, owed + {els}) && end in owed
    ensures Owes(k, Begin(EndBranch(b, end), els), owed)
  {
    hide Owes, Begin, Terminate;
    if b.terminated {
      BeginOwes(k, b, els, owed);
    } else {
      TurnOwes(k, b, Br(end), els, owed + {els}, owed);
    }
  }

  lemma {:induction false} ValueArmsOwes(k: Known, s: Em, arms: ValueArms, end: Label, slot: Option<Local>, owed: set<Label>)
    requires Owes(k, s, owed) && EmitValueArms(s, arms, end, slot).Ok? && end in owed
    ensures Owes(k, EmitValueArms(s, arms, end, slot).value.0, owed)
    decreases arms, 0
  {
    hide Owes, Begin, EndBranch, OpenThen, EmitExpr, EmitValueBranch;
    match arms
    case ValueElse(last) => ValueBranchOwes(k, s, last, slot, owed);
    case ValueArm(cond, branch, others) =>
      ExprOwes(k, s, cond, owed);
      var c := EmitExpr(s, cond).value;
      var els := c.s.lbl + 2;
      OpenThenOwes(k, c, owed);
      ValueBranchOwes(k, OpenThen(c), branch, slot, owed + {els});
      var b := EmitValueBranch(OpenThen(c), branch, slot).value;
      NextOwes(k, b.0, end, els, owed);
      ValueArmsOwes(k, Begin(EndBranch(b.0, end), els), others, end, Some(b.1), owed);
  }

  lemma {:induction false} ValueBranchOwes(k: Known, s: Em, b: ValueBranch, slot: Option<Local>, owed: set<Label>)
    requires Owes(k, s, owed) && EmitValueBranch(s, b, slot).Ok?
    ensures Owes(k, EmitValueBranch(s, b, slot).value.0, owed)
    decreases b, 0
  {
    hide Owes, EmitExpr, EmitStmts, StoreBranchValue;
    match b
    case ValueExpr(e) =>
      ExprOwes(k, s, e, owed);
      StoreBranchOwes(k, EmitExpr(s, e).value, slot, owed);
    case ValueBlock(stmts, e) =>
      OwesContext(k, s, PushScope(s), owed);
      StmtsOwes(k, PushScope(s), stmts, owed);
      var s1 := EmitStmts(PushScope(s), stmts).value;
      ExprOwes(k, s1, e, owed);
      var v := EmitExpr(s1, e).value;
      StoreBranchOwes(k, v, slot, owed);
      var r := StoreBranchValue(v, slot).value.0;
      OwesContext(k, r, PopScope(r), owed);
  }

  lemma StoreBranchOwes(k: Known, v: Emitted, slot: Option<Local>, owed: set<Label>)
    requires Owes(k, v.s, owed) && StoreBranchValue(v, slot).Ok?
    ensures Owes(k, StoreBranchValue(v, slot).value.0, owed)
  {
    hide Owes, Instr;
    OwesContext(k, v.s, Fresh(v.s, 1), owed);
    match slot
    case Some(l) => InstrOwes(k, v.s, Store(v.v, l.slot), owed);
    case None => InstrOwes(k, Fresh(v.s, 1), Store(v.v, v.s.tmp + 1), owed);
  }

  // ---------------------------------------------------------------- statements

  lemma {:induction false} StmtsOwes(k: Known, s: Em, stmts: seq<Stmt>, owed: set<Label>)
    requires Owes(k, s, owed) && EmitStmts(s, stmts).Ok?
    ensures Owes(k, EmitStmts(s, stmts).value, owed)
    decreases stmts, 0
  {
    hide Owes, EmitStmt;
    if stmts != [] {
      StmtOwes(k, s, stmts[0], owed);
      StmtsOwes(k, EmitStmt(s, stmts[0]).value, stmts[1..], owed);
    }
  }

  lemma {:induction false} BlockOwes(k: Known, s: Em, stmts: seq<Stmt>, owed: set<Label>)
    requires Owes(k, s, owed) && EmitBlock(s, stmts).Ok?
    ensures Owes(k, EmitBlock(s, stmts).value, owed)
    decreases stmts, 1
  {
    hide Owes, EmitStmts;
    OwesContext(k, s, PushScope(s), owed);
    StmtsOwes(k, PushScope(s), stmts, owed);
    var r := EmitStmts(PushScope(s), stmts).value;
    OwesContext(k, r, PopScope(r), owed);
  }

  lemma {:induction false} StmtOwes(k: Known, s: Em, x: Stmt, owed: set<Label>)
    requires Owes(k, s, owed) && EmitStmt(s, x).Ok?
    ensures Owes(k, EmitStmt(s, x).value, owed)
    decreases x, 1
  {
    hide Owes, EmitExpr, EmitBlock, EmitPrint, EmitArms, EmitWhile, EmitLoop, EmitFor, EmitAssign, Begin, Terminate;
    hide DestroyArenasFrom, CreateArena, LeaveArena, StoreNew;
    match x
    case Let(y, e) =>
      ExprOwes(k, s, e, owed);
      StoreNewOwes(k, EmitExpr(s, e).value, y, owed);
    case Assign(y, aop, e) =>
      ExprOwes(k, s, e, owed);
      AssignOwes(k, EmitExpr(s, e).value, FindLocal(s.scopes, y).value, aop, owed);
    case Eval(e) => ExprOwes(k, s, e, owed);
    case Print(items) => PrintOwes(k, s, items, [], owed);
    case Return(NoResult) => LeaveOwes(k, s, 0, Ret([]), owed);
    case Return(Result(e)) =>
      ExprOwes(k, s, e, owed);
      var v := EmitExpr(s, e).value;
      LeaveOwes(k, v.s, 0, Ret([v.v]), owed);
    case If(arms) =>
      var end := s.lbl + 1;
      OwesContext(k, s, NewLabels(s, 1), owed);
      OwesWider(k, NewLabels(s, 1), owed, owed + {end});
      ArmsOwes(k, NewLabels(s, 1), arms, end, owed + {end});
      BeginOwes(k, EmitArms(NewLabels(s, 1), arms, end).value, end, owed);
    case While(_, _) => WhileOwes(k, s, x, owed);
    case Loop(body) => LoopOwes(k, s, body, owed);
    case For(_, _, lo, hi, body) =>
      ExprOwes(k, s, lo, owed);
      var l := EmitExpr(s, lo).value;
      ExprOwes(k, l.s, hi, owed);
      var h := EmitExpr(l.s, hi).value;
      ForOwes(k, h.s, x.name, x.inclusive, l.v, h.v, body, owed);
    case Break =>
      TopOwed(k, s, owed);
      var ctx := s.loops[|s.loops| - 1];
      LeaveOwes(k, s, ctx.depth, Br(ctx.brk), owed);
    case Continue =>
      TopOwed(k, s, owed);
      var ctx := s.loops[|s.loops| - 1];
      LeaveOwes(k, s, ctx.depth, Br(ctx.cont), owed);
    case With(size, body) =>
      ExprOwes(k, s, size, owed);
      var v := EmitExpr(s, size).value;
      CreateOwes(k, v, owed);
      BlockOwes(k, CreateArena(v), body, owed);
      LeaveArenaOwes(k, EmitBlock(CreateArena(v), body).value, owed);
  }

  lemma TopOwed(k: Known, s: Em, owed: set<Label>)
    requires Owes(k, s, owed) && s.loops != []
    ensures s.loops[|s.loops| - 1].brk in k.labels && s.loops[|s.loops| - 1].cont in k.labels
  {
  }

  lemma StoreNewOwes(k: Known, v: Emitted, x: Name, owed: set<Label>)
    requires Owes(k, v.s, owed)
    ensures Owes(k, StoreNew(v, x), owed)
  {
    hide Owes, Instr;
    var s := DeclareLocal(v.s, x, v.ty);
    OwesContext(k, v.s, s, owed);
    InstrOwes(k, s, Store(v.v, s.tmp), owed);
  }

  lemma AssignOwes(k: Known, v: Emitted, l: Local, aop: AssignOp, owed: set<Label>)
    requires Owes(k, v.s, owed) && EmitAssign(v, l, aop).Ok?
    ensures Owes(k, EmitAssign(v, l, aop).value, owed)
  {
    hide Owes, Instr, EmitBinop, LoadFrom;
    match aop
    case Plain => InstrOwes(k, v.s, Store(v.v, l.slot), owed);
    case Compound(op) =>
      LoadOwes(k, v.s, l.slot, l.ty, owed);
      var cur := LoadFrom(v.s, l.slot, l.ty);
      BinopOwes(k, cur.s, op, cur.v, cur.ty, v.v, v.ty, owed);
      var r := EmitBinop(cur.s, op, cur.v, cur.ty, v.v, v.ty).value;
      InstrOwes(k, r.s, Store(r.v, l.slot), owed);
  }

  lemma {:induction false} DestroyOwes(k: Known, s: Em, n: nat, depth: nat, owed: set<Label>)
    requires Owes(k, s, owed) && n <= |s.arenas|
    ensures Owes(k, DestroyDown(s, n, depth), owed)
    decreases n
  {
    hide Owes;
    if n > depth {
      var i := ArenaDestroy(s.arenas[n - 1]);
      InstrOwes(k, s, i, owed);
      InstrBody(s, i);
      hide Instr;
      DestroyOwes(k, Instr(s, i), n - 1, depth, owed);
    }
  }

  lemma LeaveOwes(k: Known, s: Em, depth: nat, t: Term, owed: set<Label>)
    requires Owes(k, s, owed) && Targets(t) <= k.labels
    ensures Owes(k, Terminate(DestroyArenasFrom(s, depth), t), owed)
  {
    hide Owes, DestroyDown, Terminate;
    DestroyOwes(k, s, |s.arenas|, depth, owed);
    TermOwes(k, DestroyArenasFrom(s, depth), t, owed);
  }

  lemma CreateOwes(k: Known, v: Emitted, owed: set<Label>)
    requires Owes(k, v.s, owed)
    ensures Owes(k, CreateArena(v), owed)
  {
    hide Owes, Instr;
    var s := Fresh(v.s, 1);
    OwesContext(k, v.s, s, owed);
    InstrOwes(k, s, ArenaCreate(s.tmp, v.v), owed);
    OwesContext(k, Instr(s, ArenaCreate(s.tmp, v.v)), CreateArena(v), owed);
  }

  lemma LeaveArenaOwes(k: Known, s: Em, owed: set<Label>)
    requires Owes(k, s, owed)
    ensures Owes(k, LeaveArena(s), owed)
  {
    hide Owes;
    if s.arenas != [] {
      var i := ArenaDestroy(s.arenas[|s.arenas| - 1]);
      InstrOwes(k, s, i, owed);
      InstrBody(s, i);
      hide Instr;
      OwesContext(k, if s.terminated then s else Instr(s, i), LeaveArena(s), owed);
    }
  }

  lemma {:induction false} PrintOwes(k: Known, s: Em, items: seq<Item>, ready: seq<Ready>, owed: set<Label>)
    requires Owes(k, s, owed) && EmitPrint(s, items, ready).Ok?
    ensures Owes(k, EmitPrint(s, items, ready).value, owed)
    decreases items, 0
  {
    hide Owes, EmitItem, EmitReady;
    if items == [] {
      ReadyOwes(k, s, ready, owed);
    } else {
      ItemOwes(k, s, items[0], owed);
      var r := EmitItem(s, items[0]).value;
      PrintOwes(k, r.0, items[1..], ready + [r.1], owed);
    }
  }

  lemma {:induction false} ItemOwes(k: Known, s: Em, item: Item, owed: set<Label>)
    requires Owes(k, s, owed) && EmitItem(s, item).Ok?
    ensures Owes(k, EmitItem(s, item).value.0, owed)
    decreases item, 0
  {
    hide Owes, EmitExpr;
    match item
    case Text(_) =>
    case Piece(e) => ExprOwes(k, s, e, owed);
  }

  lemma {:induction false} ReadyOwes(k: Known, s: Em, ready: seq<Ready>, owed: set<Label>)
    requires Owes(k, s, owed)
    ensures Owes(k, EmitReady(s, ready), owed)
    decreases |ready|
  {
    hide Owes, PrintReady;
    if ready != [] {
      PrintReadyOwes(k, s, ready[0], owed);
      ReadyOwes(k, PrintReady(s, ready[0]), ready[1..], owed);
    }
  }

  lemma PrintReadyOwes(k: Known, s: Em, r: Ready, owed: set<Label>)
    requires Owes(k, s, owed)
    ensures Owes(k, PrintReady(s, r), owed)
  {
    hide Owes, Instr;
    match r
    case ReadyText(t) =>
      if t != "" {
        InstrOwes(k, s, PrintStr(t), owed);
      }
    case ReadyValue(v, ty) =>
      if ty == I64 {
        InstrOwes(k, s, PrintI64(v), owed);
      } else {
        OwesContext(k, s, Fresh(s, 1), owed);
        InstrOwes(k, Fresh(s, 1), Zext(s.tmp + 1, v), owed);
        InstrOwes(k, Instr(Fresh(s, 1), Zext(s.tmp + 1, v)), PrintBool(Reg(s.tmp + 1)), owed);
      }
  }

  lemma {:induction false} ArmsOwes(k: Known, s: Em, arms: Arms, end: Label, owed: set<Label>)
    requires Owes(k, s, owed) && EmitArms(s, arms, end).Ok? && end in owed
    ensures Owes(k, EmitArms(s, arms, end).value, owed)
    decreases arms, 0
  {
    hide Owes, Begin, EndBranch, OpenThen, EmitExpr, EmitBranch;
    match arms
    case NoElse =>
    case Else(last) => BranchOwes(k, s, last, owed);
    case Arm(cond, branch, others) =>
      ExprOwes(k, s, cond, owed);
      var c := EmitExpr(s, cond).value;
      var els := c.s.lbl + 2;
      OpenThenOwes(k, c, owed);
      BranchOwes(k, OpenThen(c), branch, owed + {els});
      var b := EmitBranch(OpenThen(c), branch).value;
      NextOwes(k, b, end, els, owed);
      ArmsOwes(k, Begin(EndBranch(b, end), els), others, end, owed);
  }

  lemma {:induction false} BranchOwes(k: Known, s: Em, b: Branch, owed: set<Label>)
    requires Owes(k, s, owed) && EmitBranch(s, b).Ok?
    ensures Owes(k, EmitBranch(s, b).value, owed)
    decreases b, 0
  {
    hide Owes, EmitBlock, EmitStmt;
    match b
    case Block(stmts) => BlockOwes(k, s, stmts, owed);
    case Single(x) => StmtOwes(k, s, x, owed);
  }

  // ---------------------------------------------------------------- loops

  function Inside(k: Known, cont: Label, brk: Label, depth: nat): Known {
    Known(k.loops + [LoopCtx(cont, brk, depth)], k.labels + {cont, brk})
  }

  /** The labels of a loop are known before its body is emitted. */
  lemma EnterOwes(k: Known, s: Em, cont: Label, brk: Label, owed: set<Label>)
    requires Owes(k, s, owed) && (cont in owed || LabelLine(cont) in s.body) && (brk in owed || LabelLine(brk) in s.body)
    ensures Owes(Inside(k, cont, brk, |s.arenas|), PushLoop(s, cont, brk), owed)
  {
    hide Owed;
  }

  /** After the loop, its labels are still known. */
  lemma ExitOwes(k: Known, cont: Label, brk: Label, depth: nat, s: Em, owed: set<Label>)
    requires Owes(Inside(k, cont, brk, depth), s, owed) && LoopsIn(k.loops, k.labels)
    ensures Owes(Known(k.loops, k.labels + {cont, brk}), PopLoop(s), owed)
  {
    hide Owed;
    assert (k.loops + [LoopCtx(cont, brk, depth)])[..|k.loops|] == k.loops;
  }

  lemma ForgetOwes(k: Known, more: Known, s: Em, owed: set<Label>)
    requires Owes(more, s, owed) && LoopsIn(k.loops, k.labels) && k.loops == more.loops && k.labels <= more.labels
    ensures Owes(k, s, owed)
  {
    hide Owed;
  }

  lemma OwesLoops(k: Known, s: Em, owed: set<Label>)
    requires Owes(k, s, owed)
    ensures LoopsIn(k.loops, k.labels)
  {
  }

  /** A label that was placed last is in the code. */
  lemma PlacedLast(s: Em, t: Term, l: Label)
    ensures LabelLine(l) in Begin(Terminate(s, t), l).body
  {
    hide Terminate;
  }

  lemma {:induction false} WhileOwes(k: Known, s: Em, w: Stmt, owed: set<Label>)
    requires Owes(k, s, owed) && w.While? && EmitWhile(s, w).Ok?
    ensures Owes(k, EmitWhile(s, w).value, owed)
    decreases w, 0
  {
    hide Owes, Begin, EmitExpr, EmitBlock, Terminate, EndBranch, PopLoop, PushLoop, LoopsIn;
    var condL, bodyL, endL := s.lbl + 1, s.lbl + 2, s.lbl + 3;
    OwesContext(k, s, NewLabels(s, 3), owed);
    TurnOwes(k, NewLabels(s, 3), Br(condL), condL, owed, owed);
    var h := Begin(Terminate(NewLabels(s, 3), Br(condL)), condL);
    PlacedLast(NewLabels(s, 3), Br(condL), condL);
    KnowOwes(k, h, condL, owed);
    var k1 := Known(k.loops, k.labels + {condL});
    ExprOwes(k1, h, w.cond, owed);
    var c := EmitExpr(h, w.cond).value;
    TurnOwes(k1, c.s, CondBr(c.v, bodyL, endL), bodyL, owed, owed + {endL});
    LoopBodyOwes(k1, Begin(Terminate(c.s, CondBr(c.v, bodyL, endL)), bodyL), w.body, condL, endL, owed);
    OwesLoops(k, s, owed);
    ForgetOwes(k, k1, EmitWhile(s, w).value, owed);
  }

  lemma KnowOwes(k: Known, s: Em, l: Label, owed: set<Label>)
    requires Owes(k, s, owed) && (LabelLine(l) in s.body || l in owed)
    ensures Owes(Known(k.loops, k.labels + {l}), s, owed)
  {
    hide Owed;
  }

  /** The body of a loop, the way back, and the label after it. */
  lemma {:induction false} LoopBodyOwes(k: Known, s: Em, body: seq<Stmt>, cont: Label, brk: Label, owed: set<Label>)
    requires Owes(k, s, owed + {brk}) && cont in k.labels && EmitBlock(PushLoop(s, cont, brk), body).Ok?
    ensures Owes(k, Begin(EndBranch(PopLoop(EmitBlock(PushLoop(s, cont, brk), body).value), cont), brk), owed)
    decreases body, 2
  {
    hide Owes, Begin, EmitBlock, EndBranch, PopLoop, PushLoop, LoopsIn;
    OwesLoops(k, s, owed + {brk});
    KnownLabel(k, s, cont, owed + {brk});
    EnterOwes(k, s, cont, brk, owed + {brk});
    BlockOwes(Inside(k, cont, brk, |s.arenas|), PushLoop(s, cont, brk), body, owed + {brk});
    var inner := EmitBlock(PushLoop(s, cont, brk), body).value;
    ExitOwes(k, cont, brk, |s.arenas|, inner, owed + {brk});
    var k1 := Known(k.loops, k.labels + {cont, brk});
    BackOwes(k1, PopLoop(inner), cont, brk, owed);
    ForgetOwes(k, k1, Begin(EndBranch(PopLoop(inner), cont), brk), owed);
  }

  lemma KnownLabel(k: Known, s: Em, l: Label, owed: set<Label>)
    requires Owes(k, s, owed) && l in k.labels
    ensures LabelLine(l) in s.body || l in owed
  {
  }

  /** An open block branches to a known label, and label `l` is placed. */
  lemma BackOwes(k: Known, s: Em, to: Label, l: Label, owed: set<Label>)
    requires Owes(k, s, owed + {l}) && to in k.labels
    ensures Owes(k, Begin(EndBranch(s, to), l), owed)
  {
    hide Owes, Begin, Terminate;
    if s.terminated {
      BeginOwes(k, s, l, owed);
    } else {
      TurnOwes(k, s, Br(to), l, owed + {l}, owed);
    }
  }

  lemma {:induction false} LoopOwes(k: Known, s: Em, body: seq<Stmt>, owed: set<Label>)
    requires Owes(k, s, owed) && EmitLoop(s, body).Ok?
    ensures Owes(k, EmitLoop(s, body).value, owed)
    decreases body, 3
  {
    hide Owes, Begin, EmitBlock, Terminate, EndBranch, PopLoop, PushLoop, LoopsIn;
    var bodyL, endL := s.lbl + 1, s.lbl + 2;
    OwesContext(k, s, NewLabels(s, 2), owed);
    TurnOwes(k, NewLabels(s, 2), Br(bodyL), bodyL, owed, owed + {endL});
    var h := Begin(Terminate(NewLabels(s, 2), Br(bodyL)), bodyL);
    PlacedLast(NewLabels(s, 2), Br(bodyL), bodyL);
    KnowOwes(k, h, bodyL, owed + {endL});
    var k1 := Known(k.loops, k.labels + {bodyL});
    LoopBodyOwes(k1, h, body, bodyL, endL, owed);
    OwesLoops(k, s, owed);
    ForgetOwes(k, k1, EmitLoop(s, body).value, owed);
  }

  lemma ForTestOwes(k: Known, s: Em, inclusive: bool, counter: Slot, limit: Slot, owed: set<Label>)
    requires Owes(k, s, owed)
    ensures Owes(k, ForTest(s, inclusive, counter, limit).s, owed)
  {
    hide Owes, Instr, LoadFrom;
    LoadOwes(k, s, counter, I64, owed);
    var i := LoadFrom(s, counter, I64);
    LoadOwes(k, i.s, limit, I64, owed);
    var h := LoadFrom(i.s, limit, I64);
    OwesContext(k, h.s, Fresh(h.s, 1), owed);
    InstrOwes(k, Fresh(h.s, 1), Arith(h.s.tmp + 1, if inclusive then Le else Lt, i.v, h.v), owed);
  }

  /** The labels of the test, the increment and the end stay known. */
  lemma ForHeadOwes(k: Known, s: Em, inclusive: bool, counter: Slot, limit: Slot, owed: set<Label>)
    requires Owes(k, s, owed)
    ensures Owes(Known(k.loops, k.labels + {s.lbl + 1}), ForHead(s, inclusive, counter, limit), owed + {s.lbl + 4})
  {
    hide Owes, Begin, Terminate, ForTest, LoopsIn;
    var condL, bodyL, endL := s.lbl + 1, s.lbl + 2, s.lbl + 4;
    OwesContext(k, s, NewLabels(s, 4), owed);
    TurnOwes(k, NewLabels(s, 4), Br(condL), condL, owed, owed);
    var h := Begin(Terminate(NewLabels(s, 4), Br(condL)), condL);
    PlacedLast(NewLabels(s, 4), Br(condL), condL);
    KnowOwes(k, h, condL, owed);
    var k1 := Known(k.loops, k.labels + {condL});
    ForTestOwes(k1, h, inclusive, counter, limit, owed);
    var t := ForTest(h, inclusive, counter, limit);
    TurnOwes(k1, t.s, CondBr(t.v, bodyL, endL), bodyL, owed, owed + {endL});
  }

  lemma ForBodyOwes(k: Known, s: Em, x: Name, counter: Slot, inc: Label, end: Label, owed: set<Label>)
    requires Owes(k, s, owed) && inc in owed && end in owed
    ensures Owes(Inside(k, inc, end, |s.arenas|), ForBody(s, x, counter, inc, end), owed)
  {
    hide Owes, Instr, LoadFrom, LoopsIn;
    EnterOwes(k, s, inc, end, owed);
    var k1 := Inside(k, inc, end, |s.arenas|);
    var s1 := DeclareLocal(PushScope(PushLoop(s, inc, end)), x, I64);
    OwesContext(k1, PushLoop(s, inc, end), s1, owed);
    LoadOwes(k1, s1, counter, I64, owed);
    var cur := LoadFrom(s1, counter, I64);
    InstrOwes(k1, cur.s, Store(cur.v, s1.tmp), owed);
  }

  lemma ForStepOwes(k: Known, s: Em, counter: Slot, owed: set<Label>)
    requires Owes(k, s, owed)
    ensures Owes(k, ForStep(s, counter), owed)
  {
    hide Owes, Instr, LoadFrom;
    LoadOwes(k, s, counter, I64, owed);
    var cur := LoadFrom(s, counter, I64);
    var s1 := Fresh(cur.s, 1);
    OwesContext(k, cur.s, s1, owed);
    var add := Arith(s1.tmp, Add, cur.v, Const(IntV(1)));
    InstrOwes(k, s1, add, owed);
    InstrOwes(k, Instr(s1, add), Store(Reg(s1.tmp), counter), owed);
  }

  lemma ForTailOwes(k: Known, s: Em, counter: Slot, cond: Label, inc: Label, end: Label, owed: set<Label>)
    requires Owes(k, s, owed + {inc, end}) && cond in k.labels && inc in k.labels
    ensures Owes(k, ForTail(s, counter, cond, inc, end), owed)
  {
    hide Owes, Begin, Terminate, ForStep, EndBranch;
    assert owed + {inc, end} == (owed + {end}) + {inc};
    BackOwes(k, s, inc, inc, owed + {end});
    ForStepOwes(k, Begin(EndBranch(s, inc), inc), counter, owed + {end});
    TurnOwes(k, ForStep(Begin(EndBranch(s, inc), inc), counter), Br(cond), end, owed + {end}, owed);
  }

  lemma TwoStoresOwes(k: Known, s: Em, lo: Operand, hi: Operand, owed: set<Label>)
    requires Owes(k, s, owed)
    ensures Owes(k, Instr(Instr(Fresh(s, 2), Store(lo, s.tmp + 1)), Store(hi, s.tmp + 2)), owed)
  {
    hide Owes, Instr;
    OwesContext(k, s, Fresh(s, 2), owed);
    InstrOwes(k, Fresh(s, 2), Store(lo, s.tmp + 1), owed);
    InstrOwes(k, Instr(Fresh(s, 2), Store(lo, s.tmp + 1)), Store(hi, s.tmp + 2), owed);
  }

  lemma {:induction false} ForOwes(k: Known, s: Em, x: Name, inclusive: bool, lo: Operand, hi: Operand, body: seq<Stmt>,
                                   owed: set<Label>)
    requires Owes(k, s, owed) && EmitFor(s, x, inclusive, lo, hi, body).Ok?
    ensures Owes(k, EmitFor(s, x, inclusive, lo, hi, body).value, owed)
    decreases body, 3
  {
    hide Owes, Instr, ForHead, ForBody, ForTail, EmitStmts, PopLoop, PopScope, LoopsIn;
    var counter, limit := s.tmp + 1, s.tmp + 2;
    var s1 := Instr(Instr(Fresh(s, 2), Store(lo, counter)), Store(hi, limit));
    TwoStoresOwes(k, s, lo, hi, owed);
    var condL, incL, endL := s1.lbl + 1, s1.lbl + 3, s1.lbl + 4;
    ForHeadOwes(k, s1, inclusive, counter, limit, owed);
    var h := ForHead(s1, inclusive, counter, limit);
    var k1 := Known(k.loops, k.labels + {condL});
    var more := owed + {incL, endL};
    OwesWider(k1, h, owed + {endL}, more);
    OwesLoops(k1, h, more);
    ForBodyOwes(k1, h, x, counter, incL, endL, more);
    var b := ForBody(h, x, counter, incL, endL);
    StmtsOwes(Inside(k1, incL, endL, |h.arenas|), b, body, more);
    var last := EmitStmts(b, body).value;
    OwesPop(Inside(k1, incL, endL, |h.arenas|), last, more);
    ExitOwes(k1, incL, endL, |h.arenas|, PopScope(last), more);
    var k2 := Known(k.loops, k1.labels + {incL, endL});
    ForTailOwes(k2, PopLoop(PopScope(last)), counter, condL, incL, endL, owed);
    OwesLoops(k, s, owed);
    ForgetOwes(k, k2, EmitFor(s, x, inclusive, lo, hi, body).value, owed);
  }

  lemma OwesPop(k: Known, s: Em, owed: set<Label>)
    requires Owes(k, s, owed)
    ensures Owes(k, PopScope(s), owed)
  {
    OwesContext(k, s, PopScope(s), owed);
  }

  // ---------------------------------------------------------------- functions

  lemma {:induction false} LowerOwes(k: Known, s: Em, stmts: seq<Stmt>, owed: set<Label>)
    requires Owes(k, s, owed) && LowerBody(s, stmts).Ok?
    ensures Owes(k, LowerBody(s, stmts).value, owed)
  {
    hide Owes, EmitStmt, EmitStmts, EmitExpr, Terminate, DestroyArenasFrom;
    if stmts != [] {
      var n := |stmts| - 1;
      StmtsOwes(k, s, stmts[..n], owed);
      var s1 := EmitStmts(s, stmts[..n]).value;
      if s1.ret == Void || !IsExprStmt(stmts[n]) {
        StmtOwes(k, s1, stmts[n], owed);
      } else if stmts[n].Eval? {
        ExprOwes(k, s1, stmts[n].e, owed);
        var v := EmitExpr(s1, stmts[n].e).value;
        if v.ty == v.s.ret {
          LeaveOwes(k, v.s, 0, Ret([v.v]), owed);
        } else {
          StmtOwes(k, v.s, stmts[n], owed);
        }
      } else {
        StmtOwes(k, s1, stmts[n], owed);
        StmtOwes(k, EmitStmt(s1, stmts[n]).value, stmts[n], owed);
      }
    }
  }

  lemma EndBodyOwes(k: Known, s: Em, owed: set<Label>)
    requires Owes(k, s, owed)
    ensures Owes(k, EndBody(s), owed)
  {
    hide Owes, Terminate, Instr;
    if !s.terminated {
      if s.ret == Void {
        TermOwes(k, s, Ret([]), owed);
      } else {
        InstrOwes(k, s, CallTrap(NoReturn), owed);
        TermOwes(k, Instr(s, CallTrap(NoReturn)), Unreachable, owed);
      }
    }
  }

  lemma {:induction false} ParamsOwes(k: Known, s: Em, params: seq<(Name, Ty)>, i: nat, owed: set<Label>)
    requires Owes(k, s, owed) && i <= |params|
    ensures Owes(k, EmitParams(s, params, i), owed)
    decreases |params| - i
  {
    hide Owes, Instr;
    if i < |params| {
      var s1 := DeclareLocal(s, params[i].0, params[i].1);
      OwesContext(k, s, s1, owed);
      InstrOwes(k, s1, Store(Reg(-1 - i), s1.tmp), owed);
      ParamsOwes(k, Instr(s1, Store(Reg(-1 - i), s1.tmp)), params, i + 1, owed);
    }
  }

  /** Emitted code is well formed: it is made of blocks that end in one terminator, no label is placed twice, and every
      label that a terminator branches to is placed. */
  lemma TargetsPlaced(f: Function)
    requires EmitFunction(f).Ok?
    ensures var code := EmitFunction(f).value;
            && UniqueLabels(code) && BlocksClosed(code) && Ended(code)
            && forall t, l :: TermLine(t) in code && l in Targets(t) ==> LabelLine(l) in code
  {
    EmittedBlocks(f);
    hide UniqueLabels, BlocksClosed, Ended, EmitParams, LowerBody, EndBody;
    var s, k := EMPTY_EM.(ret := f.ret), Known([], {});
    ParamsOwes(k, s, f.params, 0, {});
    var p := EmitParams(s, f.params, 0);
    LowerOwes(k, p, f.body, {});
    EndBodyOwes(k, LowerBody(p, f.body).value, {});
  }
}
