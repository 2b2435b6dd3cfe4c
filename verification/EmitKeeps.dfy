/** Every emitting step leads from a sound state to a sound state that continues it. */
module EmitKeeps {
  import opened Wrappers
  import opened UbelSyntax
  import opened BlockCode
  import opened EmitSpec
  import opened UbelSource
  import opened EmitStatic

  /** `s` stands in the scopes of `s0`. */
  ghost predicate Same(s0: Em, s: Em) {
    Good(s0, s) && s.scopes == s0.scopes
  }

  lemma SameTrans(s0: Em, s1: Em, s2: Em)
    requires Same(s0, s1) && Same(s1, s2)
    ensures Same(s0, s2)
  {
    hide Good, Pending, Begin, Instr, Terminate;
    GoodTrans(s0, s1, s2);
  }

  lemma Refl(s0: Em, s: Em)
    requires Good(s0, s)
    ensures Same(s, s)
  {
    hide Good, Pending, Begin, Instr, Terminate;
    GoodInv(s0, s);
  }

  lemma {:induction false} ExprGood(s: Em, e: Expr)
    requires Good(s, s) && EmitExpr(s, e).Ok?
    ensures Same(s, EmitExpr(s, e).value.s)
    decreases e, 1
  {
    hide Good, Pending, Begin, Instr, Terminate;
    match e
    case IntLit(_) =>
    case BoolLit(_) =>
    case Var(x) =>
      var l := FindLocal(s.scopes, x).value;
      LoadGood(s, s, l.slot, l.ty);
    case Unary(op, e1) =>
      ExprGood(s, e1);
      var v := EmitExpr(s, e1).value;
      UnaryGood(s, v, op);
    case Binary(op, lhs, rhs) =>
      ExprGood(s, lhs);
      var l := EmitExpr(s, lhs).value;
      Refl(s, l.s);
      ExprGood(l.s, rhs);
      var r := EmitExpr(l.s, rhs).value;
      SameTrans(s, l.s, r.s);
      BinopGood(s, r.s, op, l.v, l.ty, r.v, r.ty);
    case Logic(_, _, _) => LogicGood(s, e);
    case IfValue(arms) =>
      var end := s.lbl + 1;
      LabelsGood(s, s, 1);
      Refl(s, NewLabels(s, 1));
      ValueArmsGood(NewLabels(s, 1), arms, end, None);
      var a := EmitValueArms(NewLabels(s, 1), arms, end, None).value;
      GoodTrans(s, NewLabels(s, 1), a.0);
      PendingGrows(s, NewLabels(s, 1), a.0, end);
      BeginGood(s, a.0, end);
      LoadGood(s, Begin(a.0, end), a.1.slot, a.1.ty);
  }

  lemma LoadGood(s0: Em, s: Em, slot: Slot, ty: Ty)
    requires Good(s0, s)
    ensures var r := LoadFrom(s, slot, ty);
            && Good(s0, r.s) && r.s.scopes == s.scopes && r.s.arenas == s.arenas && r.s.loops == s.loops
            && r.s.tmp == s.tmp + 1 && !r.s.terminated
  {
    hide Good, Pending, Begin, Instr, Terminate;
    FreshGood(s0, s, 1);
    InstrGood(s0, Fresh(s, 1), Load(s.tmp + 1, slot));
  }

  lemma UnaryGood(s0: Em, v: Emitted, op: UnaryOp)
    requires Good(s0, v.s) && EmitUnary(v, op).Ok?
    ensures Good(s0, EmitUnary(v, op).value.s) && EmitUnary(v, op).value.s.scopes == v.s.scopes
  {
    hide Good, Pending, Begin, Instr, Terminate;
    FreshGood(s0, v.s, 1);
    var s := Fresh(v.s, 1);
    match op
    case Neg => InstrGood(s0, s, Arith(s.tmp, Sub, ZERO, v.v));
    case BitNot => InstrGood(s0, s, Arith(s.tmp, BitXor, v.v, Const(IntV(-1))));
    case Not => InstrGood(s0, s, Arith(s.tmp, BitXor, v.v, Const(BoolV(true))));
  }

  lemma BinopGood(s0: Em, s: Em, op: BinOp, l: Operand, lty: Ty, r: Operand, rty: Ty)
    requires Good(s0, s) && EmitBinop(s, op, l, lty, r, rty).Ok?
    ensures Good(s0, EmitBinop(s, op, l, lty, r, rty).value.s)
    ensures EmitBinop(s, op, l, lty, r, rty).value.s.scopes == s.scopes
  {
    hide Good, Pending, Begin, Instr, Terminate;
    FreshGood(s0, s, 1);
    var s1 := Fresh(s, 1);
    if op == Div || op == Rem {
      GuardGood(s0, s1, r);
      InstrGood(s0, DivisionGuard(s1, r), Arith(s1.tmp, op, l, r));
    } else {
      InstrGood(s0, s1, Arith(s1.tmp, op, l, r));
    }
  }

  lemma GuardGood(s0: Em, s: Em, r: Operand)
    requires Good(s0, s)
    ensures Good(s0, DivisionGuard(s, r)) && DivisionGuard(s, r).scopes == s.scopes
  {
    hide Good, Pending, Begin, Instr, Terminate;
    FreshGood(s0, s, 1);
    var zero := Fresh(s, 1).tmp;
    InstrGood(s0, Fresh(s, 1), Arith(zero, Eq, r, ZERO));
    var i := Instr(Fresh(s, 1), Arith(zero, Eq, r, ZERO));
    var bad, ok := i.lbl + 1, i.lbl + 2;
    BranchGood(s0, i, CondBr(Reg(zero), bad, ok));
    var b := Begin(Terminate(NewLabels(i, 2), CondBr(Reg(zero), bad, ok)), bad);
    InstrGood(s0, b, CallTrap(DivZero));
    PendingGrows(s0, b, Instr(b, CallTrap(DivZero)), ok);
    var t := Instr(b, CallTrap(DivZero));
    TermGood(s0, t, Unreachable);
    PendingGrows(s0, t, Terminate(t, Unreachable), ok);
    BeginGood(s0, Terminate(t, Unreachable), ok);
  }

  /** Two labels are handed out, a conditional branch is written, and the first label is placed. */
  lemma BranchGood(s0: Em, s: Em, t: Term)
    requires Good(s0, s)
    ensures var b := Begin(Terminate(NewLabels(s, 2), t), s.lbl + 1);
            Good(s0, b) && Pending(s0, b, s.lbl + 2)
    ensures var b := Begin(Terminate(NewLabels(s, 2), t), s.lbl + 1);
            !b.terminated && b.scopes == s.scopes && b.arenas == s.arenas && b.loops == s.loops
  {
    hide Good, Pending, Begin, Instr, Terminate;
    LabelsGood(s0, s, 2);
    var n := NewLabels(s, 2);
    TermGood(s0, n, t);
    PendingGrows(s0, n, Terminate(n, t), s.lbl + 1);
    PendingGrows(s0, n, Terminate(n, t), s.lbl + 2);
    BeginGood(s0, Terminate(n, t), s.lbl + 1);
    BeginPending(s0, Terminate(n, t), s.lbl + 1, s.lbl + 2);
  }

  lemma {:induction false} LogicGood(s: Em, e: Expr)
    requires Good(s, s) && e.Logic? && EmitLogic(s, e).Ok?
    ensures Same(s, EmitLogic(s, e).value.s)
    decreases e, 0
  {
    hide Good, Pending, Begin, Instr, Terminate, SplitLogic;
    FreshGood(s, s, 1);
    var f := Fresh(s, 1);
    Refl(s, f);
    ExprGood(f, e.lhs);
    var l := EmitExpr(f, e.lhs).value;
    GoodTrans(s, f, l.s);
    var stored := Instr(l.s, Store(l.v, s.tmp + 1));
    InstrGood(s, l.s, Store(l.v, s.tmp + 1));
    var split := SplitLogic(stored, e.isAnd, l.v);
    SplitGood(s, stored, e.isAnd, l.v);
    Refl(s, split);
    ExprGood(split, e.rhs);
    var r := EmitExpr(split, e.rhs).value;
    GoodTrans(s, split, r.s);
    PendingGrows(s, split, r.s, stored.lbl + 2);
    StoreJoinGood(s, r, s.tmp + 1, stored.lbl + 2);
    LoadGood(s, Begin(Terminate(Instr(r.s, Store(r.v, s.tmp + 1)), Br(stored.lbl + 2)), stored.lbl + 2), s.tmp + 1, I1);
  }

  lemma SplitGood(s0: Em, s: Em, isAnd: bool, v: Operand)
    requires Good(s0, s)
    ensures var split := SplitLogic(s, isAnd, v);
            && Good(s0, split) && Pending(s0, split, s.lbl + 2) && !split.terminated
            && split.scopes == s.scopes && split.arenas == s.arenas && split.loops == s.loops
  {
    hide Good, Pending, Begin, Instr, Terminate;
    var end := s.lbl + 2;
    BranchGood(s0, s, if isAnd then CondBr(v, end - 1, end) else CondBr(v, end, end - 1));
  }

  lemma StoreJoinGood(s0: Em, r: Emitted, slot: Slot, end: Label)
    requires Good(s0, r.s) && Pending(s0, r.s, end)
    ensures Good(s0, Begin(Terminate(Instr(r.s, Store(r.v, slot)), Br(end)), end))
    ensures Begin(Terminate(Instr(r.s, Store(r.v, slot)), Br(end)), end).scopes == r.s.scopes
  {
    hide Good, Pending, Begin, Instr, Terminate;
    var i := Instr(r.s, Store(r.v, slot));
    InstrGood(s0, r.s, Store(r.v, slot));
    PendingGrows(s0, r.s, i, end);
    TermGood(s0, i, Br(end));
    PendingGrows(s0, i, Terminate(i, Br(end)), end);
    BeginGood(s0, Terminate(i, Br(end)), end);
  }

  /** The result slot of a value-`if`: the given one, or a new one. */
  ghost predicate ResultSlot(s: Em, slot: Option<Local>, r: (Em, Local)) {
    if slot.Some? then r.1 == slot.value else s.tmp < r.1.slot <= r.0.tmp
  }

  lemma {:induction false} ValueArmsGood(s: Em, arms: ValueArms, end: Label, slot: Option<Local>)
    requires Good(s, s) && EmitValueArms(s, arms, end, slot).Ok?
    ensures Same(s, EmitValueArms(s, arms, end, slot).value.0)
    ensures ResultSlot(s, slot, EmitValueArms(s, arms, end, slot).value)
    decreases arms, 0
  {
    hide Good, Pending, Begin, Instr, Terminate;
    match arms
    case ValueElse(last) => ValueBranchGood(s, last, slot);
    case ValueArm(cond, branch, others) =>
      ExprGood(s, cond);
      var c := EmitExpr(s, cond).value;
      var open, els := OpenThen(c), c.s.lbl + 2;
      BranchGood(s, c.s, CondBr(c.v, els - 1, els));
      Refl(s, open);
      ValueBranchGood(open, branch, slot);
      var b := EmitValueBranch(open, branch, slot).value;
      NextArmGood(s, open, b.0, end, els);
      var next := Begin(EndBranch(b.0, end), els);
      Refl(s, next);
      ValueArmsGood(next, others, end, Some(b.1));
      var r := EmitValueArms(next, others, end, Some(b.1)).value;
      GoodTrans(s, next, r.0);
      TmpGrows(s, open);
      TmpGrows(b.0, next);
      TmpGrows(next, r.0);
  }

  lemma TmpGrows(s: Em, s': Em)
    requires Good(s, s') || s'.tmp >= s.tmp
    ensures s.tmp <= s'.tmp
  {
    hide SlotsOk, ScopesGrow;
  }

  /** Ends a branch and starts the block of the next condition. */
  lemma NextArmGood(s0: Em, open: Em, b: Em, end: Label, els: Label)
    requires Good(s0, open) && Pending(s0, open, els) && Same(open, b)
    ensures Good(s0, Begin(EndBranch(b, end), els))
    ensures SameContext(b, Begin(EndBranch(b, end), els))
  {
    hide Good, Pending, Begin, Instr, Terminate;
    GoodTrans(s0, open, b);
    PendingGrows(s0, open, b, els);
    EndBranchGood(s0, b, end);
    PendingGrows(s0, b, EndBranch(b, end), els);
    BeginGood(s0, EndBranch(b, end), els);
  }

  lemma {:induction false} ValueBranchGood(s: Em, b: ValueBranch, slot: Option<Local>)
    requires Good(s, s) && EmitValueBranch(s, b, slot).Ok?
    ensures Same(s, EmitValueBranch(s, b, slot).value.0)
    ensures ResultSlot(s, slot, EmitValueBranch(s, b, slot).value)
    decreases b, 0
  {
    hide Good, Pending, Begin, Instr, Terminate;
    match b
    case ValueExpr(e) =>
      ExprGood(s, e);
      StoreBranchGood(s, EmitExpr(s, e).value, slot);
    case ValueBlock(stmts, e) =>
      PushGood(s, s);
      var p := PushScope(s);
      StmtsGood(p, stmts);
      var s1 := EmitStmts(p, stmts).value;
      Refl(p, s1);
      ExprGood(s1, e);
      var v := EmitExpr(s1, e).value;
      GoodTrans(p, s1, v.s);
      StoreBranchGood(p, v, slot);
      ScopeGood(s, s, StoreBranchValue(v, slot).value.0);
  }

  lemma StoreBranchGood(s0: Em, v: Emitted, slot: Option<Local>)
    requires Good(s0, v.s) && StoreBranchValue(v, slot).Ok?
    ensures Good(s0, StoreBranchValue(v, slot).value.0)
    ensures StoreBranchValue(v, slot).value.0.scopes == v.s.scopes
    ensures ResultSlot(s0, slot, StoreBranchValue(v, slot).value)
  {
    hide Good, Pending, Begin, Instr, Terminate;
    match slot
    case Some(l) => InstrGood(s0, v.s, Store(v.v, l.slot));
    case None =>
      TmpGrows(s0, v.s);
      FreshGood(s0, v.s, 1);
      InstrGood(s0, Fresh(v.s, 1), Store(v.v, v.s.tmp + 1));
  }

  // ---------------------------------------------------------------- statements

  lemma {:induction false} StmtsGood(s: Em, stmts: seq<Stmt>)
    requires Good(s, s) && EmitStmts(s, stmts).Ok?
    ensures Good(s, EmitStmts(s, stmts).value)
    decreases stmts, 0
  {
    hide Good, Pending, Begin, Instr, Terminate;
    if stmts != [] {
      StmtGood(s, stmts[0]);
      var s1 := EmitStmt(s, stmts[0]).value;
      Refl(s, s1);
      StmtsGood(s1, stmts[1..]);
      GoodTrans(s, s1, EmitStmts(s1, stmts[1..]).value);
    }
  }

  lemma {:induction false} BlockGood(s: Em, stmts: seq<Stmt>)
    requires Good(s, s) && EmitBlock(s, stmts).Ok?
    ensures Same(s, EmitBlock(s, stmts).value)
    decreases stmts, 1
  {
    hide Good, Pending, Begin, Instr, Terminate;
    PushGood(s, s);
    StmtsGood(PushScope(s), stmts);
    ScopeGood(s, s, EmitStmts(PushScope(s), stmts).value);
  }

  /** Only a declaration changes the scopes. */
  lemma {:induction false} StmtGood(s: Em, st: Stmt)
    requires Good(s, s) && EmitStmt(s, st).Ok?
    ensures Good(s, EmitStmt(s, st).value)
    ensures !st.Let? ==> EmitStmt(s, st).value.scopes == s.scopes
    decreases st, 1
  {
    hide Good, Pending, Begin, Instr, Terminate;
    match st
    case Let(x, e) =>
      ExprGood(s, e);
      StoreNewGood(s, EmitExpr(s, e).value, x);
    case Assign(x, aop, e) =>
      ExprGood(s, e);
      AssignGood(s, EmitExpr(s, e).value, FindLocal(s.scopes, x).value, aop);
    case Eval(e) => ExprGood(s, e);
    case Print(items) => PrintGood(s, items, []);
    case Return(NoResult) => LeaveGood(s, s, 0, Ret([]));
    case Return(Result(e)) =>
      ExprGood(s, e);
      var v := EmitExpr(s, e).value;
      LeaveGood(s, v.s, 0, Ret([v.v]));
    case If(arms) => IfGood(s, arms);
    case While(_, _) => WhileGood(s, st);
    case Loop(body) => LoopStmtGood(s, body);
    case For(_, _, _, _, _) => ForStmtGood(s, st);
    case Break =>
      var ctx := s.loops[|s.loops| - 1];
      LeaveGood(s, s, ctx.depth, Br(ctx.brk));
    case Continue =>
      var ctx := s.loops[|s.loops| - 1];
      LeaveGood(s, s, ctx.depth, Br(ctx.cont));
    case With(size, body) =>
      ExprGood(s, size);
      var v := EmitExpr(s, size).value;
      CreateGood(s, v);
      BlockGood(CreateArena(v), body);
      ArenaGood(s, v, EmitBlock(CreateArena(v), body).value);
  }

  lemma {:induction false} IfGood(s: Em, arms: Arms)
    requires Good(s, s) && EmitArms(NewLabels(s, 1), arms, s.lbl + 1).Ok?
    ensures Same(s, Begin(EmitArms(NewLabels(s, 1), arms, s.lbl + 1).value, s.lbl + 1))
    decreases arms, 1
  {
    hide Good, Pending, Begin, Instr, Terminate;
    var end := s.lbl + 1;
    LabelsGood(s, s, 1);
    Refl(s, NewLabels(s, 1));
    ArmsGood(NewLabels(s, 1), arms, end);
    var a := EmitArms(NewLabels(s, 1), arms, end).value;
    GoodTrans(s, NewLabels(s, 1), a);
    PendingGrows(s, NewLabels(s, 1), a, end);
    BeginGood(s, a, end);
  }

  lemma {:induction false} ForStmtGood(s: Em, st: Stmt)
    requires Good(s, s) && st.For? && EmitStmt(s, st).Ok?
    ensures Same(s, EmitStmt(s, st).value)
    decreases st, 0
  {
    hide Good, Pending, Begin, Instr, Terminate;
    ExprGood(s, st.lo);
    var l := EmitExpr(s, st.lo).value;
    Refl(s, l.s);
    ExprGood(l.s, st.hi);
    var h := EmitExpr(l.s, st.hi).value;
    SameTrans(s, l.s, h.s);
    Refl(s, h.s);
    ForGood(h.s, st.name, st.inclusive, l.v, h.v, st.body);
    SameTrans(s, h.s, EmitStmt(s, st).value);
  }

  lemma StoreNewGood(s0: Em, v: Emitted, x: Name)
    requires Good(s0, v.s)
    ensures Good(s0, StoreNew(v, x))
  {
    hide Good, Pending, Begin, Instr, Terminate;
    DeclareGood(s0, v.s, x, v.ty);
    var s := DeclareLocal(v.s, x, v.ty);
    InstrGood(s0, s, Store(v.v, s.tmp));
  }

  lemma AssignGood(s0: Em, v: Emitted, l: Local, aop: AssignOp)
    requires Good(s0, v.s) && EmitAssign(v, l, aop).Ok?
    ensures Good(s0, EmitAssign(v, l, aop).value) && EmitAssign(v, l, aop).value.scopes == v.s.scopes
  {
    hide Good, Pending, Begin, Instr, Terminate;
    match aop
    case Plain => InstrGood(s0, v.s, Store(v.v, l.slot));
    case Compound(op) =>
      LoadGood(s0, v.s, l.slot, l.ty);
      var cur := LoadFrom(v.s, l.slot, l.ty);
      BinopGood(s0, cur.s, op, cur.v, cur.ty, v.v, v.ty);
      var r := EmitBinop(cur.s, op, cur.v, cur.ty, v.v, v.ty).value;
      InstrGood(s0, r.s, Store(r.v, l.slot));
  }

  /** Destroys arenas and ends the block. */
  lemma LeaveGood(s0: Em, s: Em, depth: nat, t: Term)
    requires Good(s0, s)
    ensures Good(s0, Terminate(DestroyArenasFrom(s, depth), t))
    ensures Terminate(DestroyArenasFrom(s, depth), t).scopes == s.scopes
  {
    hide Good, Pending, Begin, Instr, Terminate;
    DestroyGood(s0, s, |s.arenas|, depth);
    TermGood(s0, DestroyArenasFrom(s, depth), t);
  }

  lemma {:induction false} PrintGood(s: Em, items: seq<Item>, ready: seq<Ready>)
    requires Good(s, s) && EmitPrint(s, items, ready).Ok?
    ensures Same(s, EmitPrint(s, items, ready).value)
    decreases items, 0
  {
    hide Good, Pending, Begin, Instr, Terminate;
    if items == [] {
      ReadyGood(s, s, ready);
    } else {
      ItemGood(s, items[0]);
      var r := EmitItem(s, items[0]).value;
      Refl(s, r.0);
      PrintGood(r.0, items[1..], ready + [r.1]);
      SameTrans(s, r.0, EmitPrint(r.0, items[1..], ready + [r.1]).value);
    }
  }

  lemma {:induction false} ItemGood(s: Em, item: Item)
    requires Good(s, s) && EmitItem(s, item).Ok?
    ensures Same(s, EmitItem(s, item).value.0)
    decreases item, 0
  {
    hide Good, Pending, Begin, Instr, Terminate;
    match item
    case Text(_) =>
    case Piece(e) => ExprGood(s, e);
  }

  lemma {:induction false} ReadyGood(s0: Em, s: Em, ready: seq<Ready>)
    requires Good(s0, s)
    ensures Good(s0, EmitReady(s, ready)) && EmitReady(s, ready).scopes == s.scopes
    decreases |ready|
  {
    hide Good, Pending, Begin, Instr, Terminate;
    if ready != [] {
      PrintReadyGood(s0, s, ready[0]);
      ReadyGood(s0, PrintReady(s, ready[0]), ready[1..]);
    }
  }

  lemma PrintReadyGood(s0: Em, s: Em, r: Ready)
    requires Good(s0, s)
    ensures Good(s0, PrintReady(s, r)) && PrintReady(s, r).scopes == s.scopes
  {
    hide Good, Pending, Begin, Instr, Terminate;
    match r
    case ReadyText(t) =>
      if t != "" {
        InstrGood(s0, s, PrintStr(t));
      }
    case ReadyValue(v, ty) =>
      if ty == I64 {
        InstrGood(s0, s, PrintI64(v));
      } else {
        FreshGood(s0, s, 1);
        InstrGood(s0, Fresh(s, 1), Zext(s.tmp + 1, v));
        InstrGood(s0, Instr(Fresh(s, 1), Zext(s.tmp + 1, v)), PrintBool(Reg(s.tmp + 1)));
      }
  }

  lemma {:induction false} ArmsGood(s: Em, arms: Arms, end: Label)
    requires Good(s, s) && EmitArms(s, arms, end).Ok?
    ensures Same(s, EmitArms(s, arms, end).value)
    decreases arms, 0
  {
    hide Good, Pending, Begin, Instr, Terminate;
    match arms
    case NoElse =>
    case Else(last) => BranchStmtGood(s, last);
    case Arm(cond, branch, others) =>
      ExprGood(s, cond);
      var c := EmitExpr(s, cond).value;
      var open, els := OpenThen(c), c.s.lbl + 2;
      BranchGood(s, c.s, CondBr(c.v, els - 1, els));
      Refl(s, open);
      BranchStmtGood(open, branch);
      var b := EmitBranch(open, branch).value;
      NextArmGood(s, open, b, end, els);
      var next := Begin(EndBranch(b, end), els);
      Refl(s, next);
      ArmsGood(next, others, end);
      GoodTrans(s, next, EmitArms(next, others, end).value);
  }

  lemma {:induction false} BranchStmtGood(s: Em, b: Branch)
    requires Good(s, s) && EmitBranch(s, b).Ok?
    ensures Same(s, EmitBranch(s, b).value)
    decreases b, 0
  {
    hide Good, Pending, Begin, Instr, Terminate;
    match b
    case Block(stmts) => BlockGood(s, stmts);
    case Single(st) => StmtGood(s, st);
  }

  /** The start of a loop: `n` labels, a branch to the first, which is placed. */
  lemma LoopHeadGood(s0: Em, s: Em, n: nat)
    requires Good(s0, s) && n > 0
    ensures var h := Begin(Terminate(NewLabels(s, n), Br(s.lbl + 1)), s.lbl + 1);
            && Good(s0, h) && !h.terminated && h.scopes == s.scopes && h.arenas == s.arenas && h.loops == s.loops
            && (n > 1 ==> Pending(s0, h, s.lbl + 2)) && (n > 2 ==> Pending(s0, h, s.lbl + 3))
            && (n > 3 ==> Pending(s0, h, s.lbl + 4))
  {
    hide Good, Pending, Begin, Instr, Terminate;
    LabelsGood(s0, s, n);
    var m := NewLabels(s, n);
    TermGood(s0, m, Br(s.lbl + 1));
    var t := Terminate(m, Br(s.lbl + 1));
    PendingGrows(s0, m, t, s.lbl + 1);
    BeginGood(s0, t, s.lbl + 1);
    for i := 2 to 5
      invariant i > 2 && n > 1 ==> Pending(s0, Begin(t, s.lbl + 1), s.lbl + 2)
      invariant i > 3 && n > 2 ==> Pending(s0, Begin(t, s.lbl + 1), s.lbl + 3)
      invariant i > 4 && n > 3 ==> Pending(s0, Begin(t, s.lbl + 1), s.lbl + 4)
    {
      if i <= n {
        PendingGrows(s0, m, t, s.lbl + i);
        BeginPending(s0, t, s.lbl + 1, s.lbl + i);
      }
    }
  }

  /** A loop body, the branch back, and the end label. */
  lemma {:induction false} LoopBodyGood(s0: Em, s: Em, body: seq<Stmt>, cont: Label, brk: Label)
    requires Good(s0, s) && Pending(s0, s, brk) && EmitBlock(PushLoop(s, cont, brk), body).Ok?
    ensures var inner := EmitBlock(PushLoop(s, cont, brk), body).value;
            var end := Begin(EndBranch(PopLoop(inner), cont), brk);
            Good(s0, end) && end.scopes == s.scopes && Good(s, PopLoop(inner))
    decreases body, 2
  {
    hide Good, Pending, Begin, Instr, Terminate;
    LoopGood(s0, s, cont, brk);
    BlockGood(PushLoop(s, cont, brk), body);
    var inner := EmitBlock(PushLoop(s, cont, brk), body).value;
    PopLoopGood(s0, s, cont, brk, inner);
    PendingGrows(s0, s, PopLoop(inner), brk);
    EndBranchGood(s0, PopLoop(inner), cont);
    PendingGrows(s0, PopLoop(inner), EndBranch(PopLoop(inner), cont), brk);
    BeginGood(s0, EndBranch(PopLoop(inner), cont), brk);
  }

  lemma {:induction false} WhileGood(s: Em, st: Stmt)
    requires Good(s, s) && st.While? && EmitWhile(s, st).Ok?
    ensures Same(s, EmitWhile(s, st).value)
    decreases st, 0
  {
    hide Good, Pending, Begin, Instr, Terminate;
    var condL, bodyL, endL := s.lbl + 1, s.lbl + 2, s.lbl + 3;
    LoopHeadGood(s, s, 3);
    var h := Begin(Terminate(NewLabels(s, 3), Br(condL)), condL);
    Refl(s, h);
    ExprGood(h, st.cond);
    var c := EmitExpr(h, st.cond).value;
    GoodTrans(s, h, c.s);
    PendingGrows(s, h, c.s, bodyL);
    PendingGrows(s, h, c.s, endL);
    var t := Terminate(c.s, CondBr(c.v, bodyL, endL));
    TermGood(s, c.s, CondBr(c.v, bodyL, endL));
    PendingGrows(s, c.s, t, bodyL);
    PendingGrows(s, c.s, t, endL);
    BeginGood(s, t, bodyL);
    BeginPending(s, t, bodyL, endL);
    LoopBodyGood(s, Begin(t, bodyL), st.body, condL, endL);
  }

  lemma {:induction false} LoopStmtGood(s: Em, body: seq<Stmt>)
    requires Good(s, s) && EmitLoop(s, body).Ok?
    ensures Same(s, EmitLoop(s, body).value)
    decreases body, 3
  {
    hide Good, Pending, Begin, Instr, Terminate;
    LoopHeadGood(s, s, 2);
    LoopBodyGood(s, Begin(Terminate(NewLabels(s, 2), Br(s.lbl + 1)), s.lbl + 1), body, s.lbl + 1, s.lbl + 2);
  }

  lemma ForTestGood(s0: Em, s: Em, inclusive: bool, counter: Slot, limit: Slot)
    requires Good(s0, s)
    ensures var t := ForTest(s, inclusive, counter, limit);
            && Good(s0, t.s) && t.s.scopes == s.scopes && t.s.arenas == s.arenas && t.s.loops == s.loops
            && Good(s, t.s)
  {
    hide Good, Pending, Begin, Instr, Terminate;
    Refl(s0, s);
    LoadGood(s, s, counter, I64);
    var i := LoadFrom(s, counter, I64);
    LoadGood(s, i.s, limit, I64);
    var h := LoadFrom(i.s, limit, I64);
    FreshGood(s, h.s, 1);
    InstrGood(s, Fresh(h.s, 1), Arith(h.s.tmp + 1, if inclusive then Le else Lt, i.v, h.v));
    GoodTrans(s0, s, ForTest(s, inclusive, counter, limit).s);
  }

  lemma ForHeadGood(s0: Em, s: Em, inclusive: bool, counter: Slot, limit: Slot)
    requires Good(s0, s)
    ensures var h := ForHead(s, inclusive, counter, limit);
            && Good(s0, h) && !h.terminated && h.scopes == s.scopes && h.arenas == s.arenas && h.loops == s.loops
            && Pending(s0, h, s.lbl + 3) && Pending(s0, h, s.lbl + 4)
  {
    hide Good, Pending, Begin, Instr, Terminate;
    LoopHeadGood(s0, s, 4);
    var s1 := Begin(Terminate(NewLabels(s, 4), Br(s.lbl + 1)), s.lbl + 1);
    ForTestGood(s0, s1, inclusive, counter, limit);
    var t := ForTest(s1, inclusive, counter, limit);
    PendingGrows(s0, s1, t.s, s.lbl + 2);
    PendingGrows(s0, s1, t.s, s.lbl + 3);
    PendingGrows(s0, s1, t.s, s.lbl + 4);
    EnterGood(s0, t.s, CondBr(t.v, s.lbl + 2, s.lbl + 4), s.lbl + 2, s.lbl + 3, s.lbl + 4);
  }

  /** Ends a block and places label `l`; two other labels stay pending. */
  lemma EnterGood(s0: Em, s: Em, t: Term, l: Label, a: Label, b: Label)
    requires Good(s0, s) && Pending(s0, s, l) && Pending(s0, s, a) && Pending(s0, s, b) && l != a && l != b
    ensures var r := Begin(Terminate(s, t), l);
            && Good(s0, r) && Pending(s0, r, a) && Pending(s0, r, b) && !r.terminated
            && r.scopes == s.scopes && r.arenas == s.arenas && r.loops == s.loops
  {
    hide Good, Pending, Begin, Instr, Terminate;
    TermGood(s0, s, t);
    PendingGrows(s0, s, Terminate(s, t), l);
    PendingGrows(s0, s, Terminate(s, t), a);
    PendingGrows(s0, s, Terminate(s, t), b);
    BeginGood(s0, Terminate(s, t), l);
    BeginPending(s0, Terminate(s, t), l, a);
    BeginPending(s0, Terminate(s, t), l, b);
  }

  /** The state at the start of the statements of a `for` body. */
  lemma ForBodyGood(s0: Em, s: Em, x: Name, counter: Slot, inc: Label, end: Label)
    requires Good(s0, s)
    ensures Good(PushScope(PushLoop(s, inc, end)), ForBody(s, x, counter, inc, end))
    ensures Same(ForBody(s, x, counter, inc, end), ForBody(s, x, counter, inc, end))
  {
    hide Good, Pending, Begin, Instr, Terminate;
    LoopGood(s0, s, inc, end);
    PushGood(PushLoop(s, inc, end), PushLoop(s, inc, end));
    var p := PushScope(PushLoop(s, inc, end));
    DeclareGood(p, p, x, I64);
    var s1 := DeclareLocal(p, x, I64);
    LoadGood(p, s1, counter, I64);
    var cur := LoadFrom(s1, counter, I64);
    InstrGood(p, cur.s, Store(cur.v, s1.tmp));
    Refl(p, ForBody(s, x, counter, inc, end));
  }

  lemma ForStepGood(s0: Em, s: Em, counter: Slot)
    requires Good(s0, s)
    ensures Good(s0, ForStep(s, counter)) && Good(s, ForStep(s, counter)) && ForStep(s, counter).scopes == s.scopes
    ensures ForStep(s, counter).arenas == s.arenas && ForStep(s, counter).loops == s.loops
  {
    hide Good, Pending, Begin, Instr, Terminate;
    Refl(s0, s);
    LoadGood(s, s, counter, I64);
    var cur := LoadFrom(s, counter, I64);
    FreshGood(s, cur.s, 1);
    var s1 := Fresh(cur.s, 1);
    var add := Arith(s1.tmp, Add, cur.v, Const(IntV(1)));
    InstrGood(s, s1, add);
    InstrGood(s, Instr(s1, add), Store(Reg(s1.tmp), counter));
    GoodTrans(s0, s, ForStep(s, counter));
  }

  lemma ForTailGood(s0: Em, s: Em, counter: Slot, cond: Label, inc: Label, end: Label)
    requires Good(s0, s) && Pending(s0, s, inc) && Pending(s0, s, end) && inc != end
    ensures Good(s0, ForTail(s, counter, cond, inc, end)) && ForTail(s, counter, cond, inc, end).scopes == s.scopes
  {
    hide Good, Pending, Begin, Instr, Terminate;
    EndBranchGood(s0, s, inc);
    PendingGrows(s0, s, EndBranch(s, inc), inc);
    PendingGrows(s0, s, EndBranch(s, inc), end);
    BeginGood(s0, EndBranch(s, inc), inc);
    BeginPending(s0, EndBranch(s, inc), inc, end);
    var s1 := Begin(EndBranch(s, inc), inc);
    ForStepGood(s0, s1, counter);
    var s2 := ForStep(s1, counter);
    TermGood(s0, s2, Br(cond));
    GoodTrans(s1, s2, Terminate(s2, Br(cond)));
    PendingGrows(s0, s1, Terminate(s2, Br(cond)), end);
    BeginGood(s0, Terminate(s2, Br(cond)), end);
  }

  /** A `for` from the end of its body on. */
  lemma {:induction false} ForRestGood(s0: Em, s: Em, x: Name, counter: Slot, cond: Label, inc: Label, end: Label,
                                       body: seq<Stmt>)
    requires Good(s0, s) && Pending(s0, s, inc) && Pending(s0, s, end) && inc != end
    requires EmitStmts(ForBody(s, x, counter, inc, end), body).Ok?
    ensures var left := PopLoop(PopScope(EmitStmts(ForBody(s, x, counter, inc, end), body).value));
            && Good(s, left) && left.scopes == s.scopes
            && Good(s0, ForTail(left, counter, cond, inc, end))
            && ForTail(left, counter, cond, inc, end).scopes == s.scopes
    decreases body, 2
  {
    hide Good, Pending, Begin, Instr, Terminate;
    ForBodyGood(s0, s, x, counter, inc, end);
    var b := ForBody(s, x, counter, inc, end);
    StmtsGood(b, body);
    var s3 := EmitStmts(b, body).value;
    var p := PushLoop(s, inc, end);
    LoopGood(s0, s, inc, end);
    GoodTrans(PushScope(p), b, s3);
    ScopeGood(p, p, s3);
    PopLoopGood(s0, s, inc, end, PopScope(s3));
    var left := PopLoop(PopScope(s3));
    PendingGrows(s0, s, left, inc);
    PendingGrows(s0, s, left, end);
    ForTailGood(s0, left, counter, cond, inc, end);
  }

  lemma TwoStoresGood(s: Em, lo: Operand, hi: Operand)
    requires Good(s, s)
    ensures Same(s, Instr(Instr(Fresh(s, 2), Store(lo, s.tmp + 1)), Store(hi, s.tmp + 2)))
  {
    hide Good, Pending, Begin, Instr, Terminate;
    FreshGood(s, s, 2);
    InstrGood(s, Fresh(s, 2), Store(lo, s.tmp + 1));
    InstrGood(s, Instr(Fresh(s, 2), Store(lo, s.tmp + 1)), Store(hi, s.tmp + 2));
  }

  lemma {:induction false} ForGood(s: Em, x: Name, inclusive: bool, lo: Operand, hi: Operand, body: seq<Stmt>)
    requires Good(s, s) && EmitFor(s, x, inclusive, lo, hi, body).Ok?
    ensures Same(s, EmitFor(s, x, inclusive, lo, hi, body).value)
    decreases body, 3
  {
    hide Good, Pending, Begin, Instr, Terminate;
    hide Begin, Instr, ForHead, ForTail;
    var counter, limit := s.tmp + 1, s.tmp + 2;
    var s1 := Instr(Instr(Fresh(s, 2), Store(lo, counter)), Store(hi, limit));
    TwoStoresGood(s, lo, hi);
    ForHeadGood(s, s1, inclusive, counter, limit);
    ForRestGood(s, ForHead(s1, inclusive, counter, limit), x, counter, s1.lbl + 1, s1.lbl + 3, s1.lbl + 4, body);
  }

  // ---------------------------------------------------------------- functions

  lemma {:induction false} LowerGood(s: Em, stmts: seq<Stmt>)
    requires Good(s, s) && LowerBody(s, stmts).Ok?
    ensures Good(s, LowerBody(s, stmts).value)
  {
    hide Good, Pending, Begin, Instr, Terminate;
    if stmts != [] {
      var n := |stmts| - 1;
      StmtsGood(s, stmts[..n]);
      var s1 := EmitStmts(s, stmts[..n]).value;
      Refl(s, s1);
      if s1.ret == Void || !IsExprStmt(stmts[n]) {
        StmtGood(s1, stmts[n]);
      } else if stmts[n].Eval? {
        ExprGood(s1, stmts[n].e);
        var v := EmitExpr(s1, stmts[n].e).value;
        if v.ty == v.s.ret {
          LeaveGood(s1, v.s, 0, Ret([v.v]));
        } else {
          Refl(s1, v.s);
          StmtGood(v.s, stmts[n]);
          GoodTrans(s1, v.s, EmitStmt(v.s, stmts[n]).value);
        }
      } else {
        StmtGood(s1, stmts[n]);
        var s2 := EmitStmt(s1, stmts[n]).value;
        Refl(s1, s2);
        StmtGood(s2, stmts[n]);
        GoodTrans(s1, s2, EmitStmt(s2, stmts[n]).value);
      }
      GoodTrans(s, s1, LowerBody(s, stmts).value);
    }
  }

  lemma EndBodyGood(s0: Em, s: Em)
    requires Good(s0, s)
    ensures Good(s0, EndBody(s)) && EndBody(s).terminated
  {
    hide Good, Pending, Begin, Instr, Terminate;
    if !s.terminated {
      if s.ret == Void {
        TermGood(s0, s, Ret([]));
      } else {
        InstrGood(s0, s, CallTrap(NoReturn));
        TermGood(s0, Instr(s, CallTrap(NoReturn)), Unreachable);
      }
    }
  }

  lemma {:induction false} ParamsGood(s: Em, params: seq<(Name, Ty)>, i: nat)
    requires Good(s, s) && i <= |params|
    ensures Good(s, EmitParams(s, params, i))
    decreases |params| - i
  {
    hide Good, Pending, Begin, Instr, Terminate;
    if i < |params| {
      DeclareGood(s, s, params[i].0, params[i].1);
      var s1 := DeclareLocal(s, params[i].0, params[i].1);
      InstrGood(s, s1, Store(Reg(-1 - i), s1.tmp));
      var s2 := Instr(s1, Store(Reg(-1 - i), s1.tmp));
      Refl(s, s2);
      ParamsGood(s2, params, i + 1);
      GoodTrans(s, s2, EmitParams(s2, params, i + 1));
    }
  }

  /** Emitted code is made of closed blocks with distinct labels. */
  lemma EmittedBlocks(f: Function)
    requires EmitFunction(f).Ok?
    ensures var code := EmitFunction(f).value;
            UniqueLabels(code) && BlocksClosed(code) && Ended(code)
  {
    hide Good, Pending, Begin, Instr, Terminate;
    var s := EMPTY_EM.(ret := f.ret);
    assert Good(s, s) by {
      InvGood(s);
    }
    ParamsGood(s, f.params, 0);
    var p := EmitParams(s, f.params, 0);
    Refl(s, p);
    LowerGood(p, f.body);
    EndBodyGood(p, LowerBody(p, f.body).value);
    GoodInv(p, EndBody(LowerBody(p, f.body).value));
  }
}
