/** The emitter accepts exactly the well-typed functions. */
module EmitAccepts {
  import opened Wrappers
  import opened UbelSyntax
  import opened UbelSource
  import opened UbelTypes
  import opened BlockCode
  import opened EmitSpec

  // ---------------------------------------------------------------- what the typing rules look at

  /** The emitter's scopes, loops and result type are those of the context. */
  ghost predicate Matches(s: Em, c: Ctx) {
    && |s.scopes| == |c.scopes| > 0 && |s.loops| == c.loops && s.ret == c.ret
    && forall k :: 0 <= k < |s.scopes| ==> ScopeMatches(s.scopes[k], c.scopes[k])
  }

  ghost predicate ScopeMatches(a: map<Name, Local>, b: map<Name, Ty>) {
    a.Keys == b.Keys && forall x :: x in a ==> a[x].ty == b[x]
  }

  /** `s1` has the scopes, loops and result type of `s`. */
  predicate Alike(s: Em, s1: Em) {
    s1.scopes == s.scopes && s1.loops == s.loops && s1.ret == s.ret
  }

  lemma MatchesAlike(s: Em, s1: Em, c: Ctx)
    requires Matches(s, c) && Alike(s, s1)
    ensures Matches(s1, c)
  {
  }

  lemma MatchesScopes(s: Em, c: Ctx)
    requires Matches(s, c)
    ensures c.scopes != []
  {
  }

  lemma {:induction false} FoundAlike(scopes: seq<map<Name, Local>>, types: seq<map<Name, Ty>>, x: Name)
    requires |scopes| == |types| && forall k :: 0 <= k < |scopes| ==> ScopeMatches(scopes[k], types[k])
    ensures FindLocal(scopes, x).Some? <==> TypeOfName(types, x).Some?
    ensures FindLocal(scopes, x).Some? ==> TypeOfName(types, x) == Some(FindLocal(scopes, x).value.ty)
  {
    if scopes != [] {
      var k := |scopes| - 1;
      assert ScopeMatches(scopes[k], types[k]);
      if x !in scopes[k] {
        FoundAlike(scopes[..k], types[..k], x);
      }
    }
  }

  // ---------------------------------------------------------------- primitive steps

  lemma BeginAlike(s: Em, l: Label)
    ensures Alike(s, Begin(s, l))
  {
  }

  lemma InstrAlike(s: Em, i: Inst)
    ensures Alike(s, Instr(s, i))
  {
    BeginAlike(s.(lbl := s.lbl + 1), s.lbl + 1);
    hide Begin;
  }

  lemma TermAlike(s: Em, t: Term)
    ensures Alike(s, Terminate(s, t))
  {
    BeginAlike(s.(lbl := s.lbl + 1), s.lbl + 1);
    hide Begin;
  }

  lemma LoadAlike(s: Em, slot: Slot, ty: Ty)
    ensures Alike(s, LoadFrom(s, slot, ty).s) && LoadFrom(s, slot, ty).ty == ty
  {
    InstrAlike(Fresh(s, 1), Load(s.tmp + 1, slot));
    hide Instr;
  }

  lemma {:induction false} DestroyAlike(s: Em, k: nat, depth: nat)
    requires k <= |s.arenas|
    ensures Alike(s, DestroyDown(s, k, depth))
    decreases k
  {
    if k > depth {
      var i := ArenaDestroy(s.arenas[k - 1]);
      InstrAlike(s, i);
      InstrArenas(s, i);
      hide Instr;
      DestroyAlike(Instr(s, i), k - 1, depth);
    }
  }

  lemma InstrArenas(s: Em, i: Inst)
    ensures Instr(s, i).arenas == s.arenas
  {
  }

  lemma LeaveAlike(s: Em, depth: nat, t: Term)
    ensures Alike(s, Terminate(DestroyArenasFrom(s, depth), t))
  {
    DestroyAlike(s, |s.arenas|, depth);
    TermAlike(DestroyArenasFrom(s, depth), t);
    hide Terminate, DestroyDown;
  }

  lemma EndBranchAlike(s: Em, end: Label)
    ensures Alike(s, EndBranch(s, end))
  {
    TermAlike(s, Br(end));
    hide Terminate;
  }

  lemma JoinAlike(s: Em, end: Label, next: Label)
    ensures Alike(s, Begin(EndBranch(s, end), next))
  {
    EndBranchAlike(s, end);
    BeginAlike(EndBranch(s, end), next);
    hide Begin, EndBranch;
  }

  lemma SplitAlike(s: Em, t: Term, l: Label)
    ensures Alike(s, Begin(Terminate(s, t), l))
  {
    TermAlike(s, t);
    BeginAlike(Terminate(s, t), l);
    hide Begin, Terminate;
  }

  lemma DivisionAlike(s: Em, op: BinOp, l: Operand, r: Operand)
    ensures Alike(s, EmitDivision(s, op, l, r).s) && EmitDivision(s, op, l, r).ty == I64
  {
    var zero := s.tmp + 1;
    var test := Arith(zero, Eq, r, ZERO);
    InstrAlike(Fresh(s, 1), test);
    var s1 := NewLabels(Instr(Fresh(s, 1), test), 2);
    var bad, ok := s1.lbl - 1, s1.lbl;
    SplitAlike(s1, CondBr(Reg(zero), bad, ok), bad);
    var s2 := Begin(Terminate(s1, CondBr(Reg(zero), bad, ok)), bad);
    InstrAlike(s2, CallTrap(DivZero));
    SplitAlike(Instr(s2, CallTrap(DivZero)), Unreachable, ok);
    InstrAlike(DivisionGuard(s, r), Arith(s.tmp, op, l, r));
    hide Instr, Begin, Terminate;
  }

  // ---------------------------------------------------------------- operators

  /** An emitted value is there exactly for an expression with a type, and has that type. */
  ghost predicate Accepts(r: R<Emitted>, t: Option<Ty>, c: Ctx) {
    if t.None? then r.Err? else r.Ok? && r.value.ty == t.value && Matches(r.value.s, c)
  }

  lemma BinopAccepted(s: Em, op: BinOp, l: Operand, lty: Ty, r: Operand, rty: Ty, c: Ctx)
    requires Matches(s, c)
    ensures Accepts(EmitBinop(s, op, l, lty, r, rty), BinaryType(op, lty, rty), c)
  {
    var s1 := Fresh(s, 1);
    InstrAlike(s1, Arith(s1.tmp, op, l, r));
    DivisionAlike(s1, op, l, r);
    hide Instr, EmitDivision, ScopeMatches;
  }

  lemma UnaryAccepted(v: Emitted, op: UnaryOp, c: Ctx)
    requires Matches(v.s, c)
    ensures Accepts(EmitUnary(v, op), if v.ty == UnaryType(op) then Some(UnaryType(op)) else None, c)
  {
    var s := Fresh(v.s, 1);
    InstrAlike(s, Arith(s.tmp, Sub, ZERO, v.v));
    InstrAlike(s, Arith(s.tmp, BitXor, v.v, Const(IntV(-1))));
    InstrAlike(s, Arith(s.tmp, BitXor, v.v, Const(BoolV(true))));
    hide Instr, ScopeMatches;
  }

  // ---------------------------------------------------------------- expressions

  lemma {:induction false} ExprAccepted(s: Em, c: Ctx, e: Expr)
    requires Matches(s, c)
    ensures Accepts(EmitExpr(s, e), ExprType(c, e), c)
    decreases e, 3
  {
    hide Matches, EmitBinop, EmitUnary, Instr, BinaryType;
    match e
    case IntLit(_) =>
    case BoolLit(_) =>
    case Var(x) => VarAccepted(s, c, x);
    case Unary(op, e1) =>
      ExprAccepted(s, c, e1);
      var v := EmitExpr(s, e1);
      if v.Ok? {
        UnaryAccepted(v.value, op, c);
      }
    case Binary(op, lhs, rhs) =>
      ExprAccepted(s, c, lhs);
      var l := EmitExpr(s, lhs);
      if l.Ok? {
        ExprAccepted(l.value.s, c, rhs);
        var r := EmitExpr(l.value.s, rhs);
        if r.Ok? {
          BinopAccepted(r.value.s, op, l.value.v, l.value.ty, r.value.v, r.value.ty, c);
        }
      } else {
        hide EmitExpr;
      }
    case Logic(_, _, _) => LogicAccepted(s, c, e);
    case IfValue(arms) =>
      var end := s.lbl + 1;
      MatchesAlike(s, NewLabels(s, 1), c);
      ArmsAccepted(NewLabels(s, 1), c, arms, end, None);
      var a := EmitValueArms(NewLabels(s, 1), arms, end, None);
      if a.Ok? {
        BeginAlike(a.value.0, end);
        LoadAlike(Begin(a.value.0, end), a.value.1.slot, a.value.1.ty);
        MatchesAlike(a.value.0, LoadFrom(Begin(a.value.0, end), a.value.1.slot, a.value.1.ty).s, c);
      }
  }

  lemma VarAccepted(s: Em, c: Ctx, x: Name)
    requires Matches(s, c)
    ensures Accepts(EmitExpr(s, Var(x)), TypeOfName(c.scopes, x), c)
  {
    FoundAlike(s.scopes, c.scopes, x);
    var l := FindLocal(s.scopes, x);
    if l.Some? {
      InstrAlike(Fresh(s, 1), Load(s.tmp + 1, l.value.slot));
    }
    hide Instr, FindLocal, TypeOfName, ScopeMatches;
  }

  lemma {:induction false} LogicAccepted(s: Em, c: Ctx, e: Expr)
    requires Matches(s, c) && e.Logic?
    ensures Accepts(EmitLogic(s, e), ExprType(c, e), c)
    decreases e, 2
  {
    hide Matches, Instr, Begin, Terminate, EmitExpr, SplitLogic, LoadFrom;
    var slot := s.tmp + 1;
    MatchesAlike(s, Fresh(s, 1), c);
    ExprAccepted(Fresh(s, 1), c, e.lhs);
    var l := EmitExpr(Fresh(s, 1), e.lhs);
    if l.Ok? && l.value.ty == I1 {
      var stored := Instr(l.value.s, Store(l.value.v, slot));
      InstrAlike(l.value.s, Store(l.value.v, slot));
      SplitLogicAlike(stored, e.isAnd, l.value.v);
      var split := SplitLogic(stored, e.isAnd, l.value.v);
      MatchesAlike(l.value.s, split, c);
      ExprAccepted(split, c, e.rhs);
      var r := EmitExpr(split, e.rhs);
      if r.Ok? && r.value.ty == I1 {
        var end := stored.lbl + 2;
        InstrAlike(r.value.s, Store(r.value.v, slot));
        SplitAlike(Instr(r.value.s, Store(r.value.v, slot)), Br(end), end);
        var joined := Begin(Terminate(Instr(r.value.s, Store(r.value.v, slot)), Br(end)), end);
        LoadAlike(joined, slot, I1);
        MatchesAlike(r.value.s, LoadFrom(joined, slot, I1).s, c);
      }
    }
  }

  lemma SplitLogicAlike(s: Em, isAnd: bool, v: Operand)
    ensures Alike(s, SplitLogic(s, isAnd, v))
  {
    var rhs, end := s.lbl + 1, s.lbl + 2;
    SplitAlike(NewLabels(s, 2), if isAnd then CondBr(v, rhs, end) else CondBr(v, end, rhs), rhs);
    hide Begin, Terminate;
  }

  lemma OpenAlike(v: Emitted)
    ensures Alike(v.s, OpenThen(v))
  {
    var s := NewLabels(v.s, 2);
    SplitAlike(s, CondBr(v.v, s.lbl - 1, s.lbl), s.lbl - 1);
    hide Begin, Terminate;
  }

  /** The branches of a value-`if`, when the first branch may already have fixed the type. */
  ghost predicate AcceptsIn(r: R<(Em, Local)>, t: Option<Ty>, slot: Option<Local>, c: Ctx) {
    if t.None? || (slot.Some? && slot.value.ty != t.value) then r.Err?
    else r.Ok? && r.value.1.ty == t.value && Matches(r.value.0, c)
  }

  lemma {:induction false} ArmsAccepted(s: Em, c: Ctx, arms: ValueArms, end: Label, slot: Option<Local>)
    requires Matches(s, c)
    ensures AcceptsIn(EmitValueArms(s, arms, end, slot), ArmsType(c, arms), slot, c)
    decreases arms, 2
  {
    hide Matches, EmitExpr, EmitValueBranch, OpenThen, Begin, EndBranch;
    match arms
    case ValueElse(last) => BranchAccepted(s, c, last, slot);
    case ValueArm(cond, branch, others) =>
      ExprAccepted(s, c, cond);
      var v := EmitExpr(s, cond);
      if v.Ok? && v.value.ty == I1 {
        OpenAlike(v.value);
        MatchesAlike(v.value.s, OpenThen(v.value), c);
        BranchAccepted(OpenThen(v.value), c, branch, slot);
        var b := EmitValueBranch(OpenThen(v.value), branch, slot);
        if b.Ok? {
          var els := v.value.s.lbl + 2;
          JoinAlike(b.value.0, end, els);
          var s1 := Begin(EndBranch(b.value.0, end), els);
          MatchesAlike(b.value.0, s1, c);
          ArmsAccepted(s1, c, others, end, Some(b.value.1));
        }
      }
  }

  lemma {:induction false} BranchAccepted(s: Em, c: Ctx, b: ValueBranch, slot: Option<Local>)
    requires Matches(s, c)
    ensures AcceptsIn(EmitValueBranch(s, b, slot), BranchType(c, b), slot, c)
    decreases b, 2
  {
    hide Matches, EmitExpr, StoreBranchValue, EmitStmts, AfterStmts;
    match b
    case ValueExpr(e) =>
      ExprAccepted(s, c, e);
      var v := EmitExpr(s, e);
      if v.Ok? {
        StoreAccepted(v.value, slot, c);
      }
    case ValueBlock(stmts, e) =>
      MatchesScopes(s, c);
      PushMatches(s, c);
      StmtsAccepted(PushScope(s), Inner(c), stmts);
      var s1 := EmitStmts(PushScope(s), stmts);
      if s1.Ok? {
        var c1 := AfterStmts(Inner(c), stmts).value;
        ExprAccepted(s1.value, c1, e);
        var v := EmitExpr(s1.value, e);
        if v.Ok? {
          StoreAccepted(v.value, slot, c1);
          var r := StoreBranchValue(v.value, slot);
          if r.Ok? {
            PopMatches(r.value.0, c, c1);
          }
        }
      }
  }

  lemma StoreAccepted(v: Emitted, slot: Option<Local>, c: Ctx)
    requires Matches(v.s, c)
    ensures AcceptsIn(StoreBranchValue(v, slot), if v.ty == Void then None else Some(v.ty), slot, c)
  {
    var s := Fresh(v.s, 1);
    InstrAlike(s, Store(v.v, s.tmp));
    if slot.Some? {
      InstrAlike(v.s, Store(v.v, slot.value.slot));
    }
    hide Instr, ScopeMatches;
  }

  lemma PushMatches(s: Em, c: Ctx)
    requires Matches(s, c)
    ensures Matches(PushScope(s), Inner(c))
  {
  }

  /** Leaving the innermost scope gives the context back. */
  lemma PopMatches(s: Em, c: Ctx, c1: Ctx)
    requires Matches(s, c1) && c.scopes != [] && Extends(Inner(c), c1)
    ensures Matches(PopScope(s), c)
  {
    assert Inner(c).scopes[..|c.scopes|] == c.scopes;
    forall k | 0 <= k < |c.scopes|
      ensures ScopeMatches(s.scopes[k], c.scopes[k])
    {
      assert c1.scopes[..|c.scopes|][k] == c.scopes[k];
    }
    hide ScopeMatches;
  }

  // ---------------------------------------------------------------- statements

  ghost predicate AcceptsAfter(r: R<Em>, c: Option<Ctx>) {
    if c.None? then r.Err? else r.Ok? && Matches(r.value, c.value)
  }

  lemma {:induction false} StmtsAccepted(s: Em, c: Ctx, stmts: seq<Stmt>)
    requires Matches(s, c)
    ensures AcceptsAfter(EmitStmts(s, stmts), AfterStmts(c, stmts))
    decreases stmts, 2
  {
    hide Matches, EmitStmt, AfterStmt;
    if stmts != [] {
      StmtAccepted(s, c, stmts[0]);
      var s1 := EmitStmt(s, stmts[0]);
      if s1.Ok? {
        StmtsAccepted(s1.value, AfterStmt(c, stmts[0]).value, stmts[1..]);
      }
    }
  }

  lemma {:induction false} BlockAccepted(s: Em, c: Ctx, stmts: seq<Stmt>)
    requires Matches(s, c)
    ensures AcceptsAfter(EmitBlock(s, stmts), if BlockOk(c, stmts) then Some(c) else None)
    decreases stmts, 3
  {
    hide Matches, EmitStmts, AfterStmts;
    MatchesScopes(s, c);
    PushMatches(s, c);
    StmtsAccepted(PushScope(s), Inner(c), stmts);
    var s1 := EmitStmts(PushScope(s), stmts);
    if s1.Ok? {
      PopMatches(s1.value, c, AfterStmts(Inner(c), stmts).value);
    }
  }

  lemma {:induction false} StmtAccepted(s: Em, c: Ctx, st: Stmt)
    requires Matches(s, c)
    ensures AcceptsAfter(EmitStmt(s, st), AfterStmt(c, st))
    decreases st, 3
  {
    hide Matches, EmitExpr, EmitPrint, EmitArms, EmitWhile, EmitLoop, EmitFor, EmitBlock, StoreNew, EmitAssign, DoReturn, ExprType;
    hide Terminate, DestroyArenasFrom, Begin, CreateArena, LeaveArena, BlockOk, ArmsOk, AfterStmts;
    match st
    case Let(x, e) =>
      ExprAccepted(s, c, e);
      if EmitExpr(s, e).Ok? {
        LetAccepted(EmitExpr(s, e).value, x, c);
      }
    case Assign(x, aop, e) => AssignAccepted(s, c, x, aop, e);
    case Eval(e) => ExprAccepted(s, c, e);
    case Print(items) => PrintAccepted(s, c, items, []);
    case Return(NoResult) =>
      ReturnsAlike(s, c);
    case Return(Result(e)) =>
      ExprAccepted(s, c, e);
      if EmitExpr(s, e).Ok? {
        ReturnAccepted(EmitExpr(s, e).value, c);
      }
    case If(arms) =>
      var end := s.lbl + 1;
      MatchesAlike(s, NewLabels(s, 1), c);
      StmtArmsAccepted(NewLabels(s, 1), c, arms, end);
      var s1 := EmitArms(NewLabels(s, 1), arms, end);
      if s1.Ok? {
        BeginAlike(s1.value, end);
        MatchesAlike(s1.value, Begin(s1.value, end), c);
      }
    case While(_, _) => WhileAccepted(s, c, st);
    case Loop(body) => LoopAccepted(s, c, body);
    case For(_, _, _, _, _) => ForAccepted(s, c, st);
    case Break => JumpAccepted(s, c);
    case Continue => JumpAccepted(s, c);
    case With(_, _) => WithAccepted(s, c, st);
  }

  lemma LetAccepted(v: Emitted, x: Name, c: Ctx)
    requires Matches(v.s, c)
    ensures Matches(StoreNew(v, x), Bind(c, x, v.ty))
  {
    var s := DeclareLocal(v.s, x, v.ty);
    InstrAlike(s, Store(v.v, s.tmp));
    assert ScopeMatches(v.s.scopes[|c.scopes| - 1], c.scopes[|c.scopes| - 1]);
    hide Instr;
  }

  lemma {:induction false} AssignAccepted(s: Em, c: Ctx, x: Name, aop: AssignOp, e: Expr)
    requires Matches(s, c)
    ensures AcceptsAfter(EmitStmt(s, Assign(x, aop, e)), AfterStmt(c, Assign(x, aop, e)))
    decreases e, 4
  {
    hide EmitExpr, EmitAssign, ExprType, Assignable, FindLocal, TypeOfName, Instr;
    ExprAccepted(s, c, e);
    FoundAlike(s.scopes, c.scopes, x);
    hide Matches, ScopeMatches;
    var l, v := FindLocal(s.scopes, x), EmitExpr(s, e);
    if l.Some? && v.Ok? {
      StoredAccepted(v.value, l.value, aop, c);
    }
  }

  lemma StoredAccepted(v: Emitted, l: Local, aop: AssignOp, c: Ctx)
    requires Matches(v.s, c)
    ensures AcceptsAfter(EmitAssign(v, l, aop), if Assignable(aop, l.ty, v.ty) then Some(c) else None)
  {
    hide Matches, EmitBinop, BinaryType, Instr, LoadFrom;
    match aop
    case Plain =>
      InstrAlike(v.s, Store(v.v, l.slot));
      MatchesAlike(v.s, Instr(v.s, Store(v.v, l.slot)), c);
    case Compound(op) =>
      var cur := LoadFrom(v.s, l.slot, l.ty);
      LoadAlike(v.s, l.slot, l.ty);
      MatchesAlike(v.s, cur.s, c);
      BinopAccepted(cur.s, op, cur.v, cur.ty, v.v, v.ty, c);
      var r := EmitBinop(cur.s, op, cur.v, cur.ty, v.v, v.ty);
      if r.Ok? {
        InstrAlike(r.value.s, Store(r.value.v, l.slot));
        MatchesAlike(r.value.s, Instr(r.value.s, Store(r.value.v, l.slot)), c);
      }
  }

  lemma ReturnsAlike(s: Em, c: Ctx)
    requires Matches(s, c)
    ensures Matches(Terminate(DestroyArenasFrom(s, 0), Ret([])), c) && s.ret == c.ret
  {
    LeaveAlike(s, 0, Ret([]));
    hide Terminate, DestroyArenasFrom, ScopeMatches;
  }

  lemma ReturnAccepted(v: Emitted, c: Ctx)
    requires Matches(v.s, c)
    ensures AcceptsAfter(DoReturn(v), if c.ret != Void && v.ty == c.ret then Some(c) else None)
  {
    LeaveAlike(v.s, 0, Ret([v.v]));
    hide Terminate, DestroyArenasFrom, ScopeMatches;
  }

  lemma JumpAccepted(s: Em, c: Ctx)
    requires Matches(s, c)
    ensures AcceptsAfter(EmitStmt(s, Break), if c.loops > 0 then Some(c) else None)
    ensures AcceptsAfter(EmitStmt(s, Continue), if c.loops > 0 then Some(c) else None)
  {
    hide Matches, Terminate, DestroyArenasFrom, EmitStmt;
    MatchesLoops(s, c);
    JumpForm(s);
    if s.loops != [] {
      var ctx := s.loops[|s.loops| - 1];
      LeaveMatches(s, c, ctx.depth, Br(ctx.brk));
      LeaveMatches(s, c, ctx.depth, Br(ctx.cont));
    }
  }

  lemma JumpForm(s: Em)
    ensures EmitStmt(s, Break) == if s.loops == [] then R.Err else
              Ok(Terminate(DestroyArenasFrom(s, s.loops[|s.loops| - 1].depth), Br(s.loops[|s.loops| - 1].brk)))
    ensures EmitStmt(s, Continue) == if s.loops == [] then R.Err else
              Ok(Terminate(DestroyArenasFrom(s, s.loops[|s.loops| - 1].depth), Br(s.loops[|s.loops| - 1].cont)))
  {
    hide Terminate, DestroyArenasFrom;
  }

  lemma MatchesLoops(s: Em, c: Ctx)
    requires Matches(s, c)
    ensures |s.loops| == c.loops
  {
  }

  lemma LeaveMatches(s: Em, c: Ctx, depth: nat, t: Term)
    requires Matches(s, c)
    ensures Matches(Terminate(DestroyArenasFrom(s, depth), t), c)
  {
    hide Matches, Terminate, DestroyArenasFrom;
    LeaveAlike(s, depth, t);
    MatchesAlike(s, Terminate(DestroyArenasFrom(s, depth), t), c);
  }

  lemma {:induction false} PrintAccepted(s: Em, c: Ctx, items: seq<Item>, ready: seq<Ready>)
    requires Matches(s, c)
    ensures AcceptsAfter(EmitPrint(s, items, ready), if forall i :: 0 <= i < |items| ==> ItemOk(c, items[i]) then Some(c) else None)
    decreases items, 2
  {
    hide Matches, EmitItem, EmitReady, ItemOk;
    if items == [] {
      ReadyAlike(s, ready);
      MatchesAlike(s, EmitReady(s, ready), c);
    } else {
      ItemAccepted(s, c, items[0]);
      var r := EmitItem(s, items[0]);
      if r.Ok? {
        PrintAccepted(r.value.0, c, items[1..], ready + [r.value.1]);
        MatchesScopes(s, c);
        ItemsShift(c, items);
      }
    }
  }

  lemma ItemsShift(c: Ctx, items: seq<Item>)
    requires c.scopes != [] && items != [] && ItemOk(c, items[0])
    ensures (forall i :: 0 <= i < |items| ==> ItemOk(c, items[i])) <==> forall i :: 0 <= i < |items| - 1 ==> ItemOk(c, items[1..][i])
  {
    hide ItemOk;
    if forall i :: 0 <= i < |items| - 1 ==> ItemOk(c, items[1..][i]) {
      forall i | 0 <= i < |items|
        ensures ItemOk(c, items[i])
      {
        if i > 0 {
          assert ItemOk(c, items[1..][i - 1]);
        }
      }
    }
  }

  lemma {:induction false} ItemAccepted(s: Em, c: Ctx, item: Item)
    requires Matches(s, c)
    ensures if ItemOk(c, item) then EmitItem(s, item).Ok? && Matches(EmitItem(s, item).value.0, c) else EmitItem(s, item).Err?
    decreases item, 2
  {
    hide Matches, EmitExpr, ExprType;
    match item
    case Text(_) =>
    case Piece(e) => ExprAccepted(s, c, e);
  }

  lemma {:induction false} ReadyAlike(s: Em, ready: seq<Ready>)
    ensures Alike(s, EmitReady(s, ready))
    decreases |ready|
  {
    hide PrintReady;
    if ready != [] {
      PieceAlike(s, ready[0]);
      ReadyAlike(PrintReady(s, ready[0]), ready[1..]);
    }
  }

  lemma PieceAlike(s: Em, r: Ready)
    ensures Alike(s, PrintReady(s, r))
  {
    match r
    case ReadyText(t) =>
      InstrAlike(s, PrintStr(t));
      hide Instr;
    case ReadyValue(v, ty) =>
      var s1 := Fresh(s, 1);
      InstrAlike(s, PrintI64(v));
      InstrAlike(s1, Zext(s1.tmp, v));
      InstrAlike(Instr(s1, Zext(s1.tmp, v)), PrintBool(Reg(s1.tmp)));
      hide Instr;
  }

  lemma {:induction false} StmtArmsAccepted(s: Em, c: Ctx, arms: Arms, end: Label)
    requires Matches(s, c)
    ensures AcceptsAfter(EmitArms(s, arms, end), if ArmsOk(c, arms) then Some(c) else None)
    decreases arms, 2
  {
    hide Matches, EmitExpr, ExprType, EmitBranch, BranchOk, OpenThen, Begin, EndBranch;
    match arms
    case NoElse =>
    case Else(last) => StmtBranchAccepted(s, c, last);
    case Arm(cond, branch, others) =>
      ExprAccepted(s, c, cond);
      var v := EmitExpr(s, cond);
      if v.Ok? && v.value.ty == I1 {
        OpenAlike(v.value);
        MatchesAlike(v.value.s, OpenThen(v.value), c);
        StmtBranchAccepted(OpenThen(v.value), c, branch);
        var b := EmitBranch(OpenThen(v.value), branch);
        if b.Ok? {
          var els := v.value.s.lbl + 2;
          JoinAlike(b.value, end, els);
          var s1 := Begin(EndBranch(b.value, end), els);
          MatchesAlike(b.value, s1, c);
          StmtArmsAccepted(s1, c, others, end);
        }
      }
  }

  lemma {:induction false} StmtBranchAccepted(s: Em, c: Ctx, b: Branch)
    requires Matches(s, c)
    ensures AcceptsAfter(EmitBranch(s, b), if BranchOk(c, b) then Some(c) else None)
    decreases b, 2
  {
    hide Matches, EmitBlock, EmitStmt, BlockOk, StmtOk;
    match b
    case Block(stmts) => BlockAccepted(s, c, stmts);
    case Single(st) => StmtAccepted(s, c, st);
  }

  // ---------------------------------------------------------------- loops and arena blocks

  lemma LoopMatches(s: Em, c: Ctx, cont: Label, brk: Label)
    requires Matches(s, c)
    ensures Matches(PushLoop(s, cont, brk), InLoop(c))
  {
  }

  lemma LoopLeft(s: Em, c: Ctx)
    requires Matches(s, InLoop(c))
    ensures Matches(PopLoop(s), c)
  {
  }

  lemma {:induction false} WhileAccepted(s: Em, c: Ctx, st: Stmt)
    requires Matches(s, c) && st.While?
    ensures AcceptsAfter(EmitWhile(s, st), if StmtOk(c, st) then Some(c) else None)
    decreases st, 2
  {
    hide Matches, EmitExpr, ExprType, EmitBlock, BlockOk, Begin, Terminate, EndBranch, PushLoop, PopLoop;
    var condL, bodyL, endL := s.lbl + 1, s.lbl + 2, s.lbl + 3;
    SplitAlike(NewLabels(s, 3), Br(condL), condL);
    var s0 := Begin(Terminate(NewLabels(s, 3), Br(condL)), condL);
    MatchesAlike(s, s0, c);
    ExprAccepted(s0, c, st.cond);
    var v := EmitExpr(s0, st.cond);
    if v.Ok? && v.value.ty == I1 {
      SplitAlike(v.value.s, CondBr(v.value.v, bodyL, endL), bodyL);
      var s1 := Begin(Terminate(v.value.s, CondBr(v.value.v, bodyL, endL)), bodyL);
      MatchesAlike(v.value.s, s1, c);
      LoopBodyAccepted(s1, c, condL, endL, condL, endL, st.body);
    }
  }

  /** A body in a loop, and the jump back. */
  lemma {:induction false} LoopBodyAccepted(s: Em, c: Ctx, cont: Label, brk: Label, back: Label, end: Label, body: seq<Stmt>)
    requires Matches(s, c)
    ensures var b := EmitBlock(PushLoop(s, cont, brk), body);
            if BlockOk(InLoop(c), body) then b.Ok? && Matches(Begin(EndBranch(PopLoop(b.value), back), end), c) else b.Err?
    decreases body, 4
  {
    hide Matches, EmitBlock, BlockOk, Begin, EndBranch, PushLoop, PopLoop;
    LoopMatches(s, c, cont, brk);
    BlockAccepted(PushLoop(s, cont, brk), InLoop(c), body);
    var b := EmitBlock(PushLoop(s, cont, brk), body);
    if b.Ok? {
      LoopLeft(b.value, c);
      JoinAlike(PopLoop(b.value), back, end);
      MatchesAlike(PopLoop(b.value), Begin(EndBranch(PopLoop(b.value), back), end), c);
    }
  }

  lemma {:induction false} LoopAccepted(s: Em, c: Ctx, body: seq<Stmt>)
    requires Matches(s, c)
    ensures AcceptsAfter(EmitLoop(s, body), if BlockOk(InLoop(c), body) then Some(c) else None)
    decreases body, 5
  {
    hide Matches, EmitBlock, BlockOk, Begin, Terminate, EndBranch, PushLoop, PopLoop;
    var bodyL, endL := s.lbl + 1, s.lbl + 2;
    SplitAlike(NewLabels(s, 2), Br(bodyL), bodyL);
    var s1 := Begin(Terminate(NewLabels(s, 2), Br(bodyL)), bodyL);
    MatchesAlike(s, s1, c);
    LoopBodyAccepted(s1, c, bodyL, endL, bodyL, endL, body);
  }

  lemma {:induction false} ForAccepted(s: Em, c: Ctx, st: Stmt)
    requires Matches(s, c) && st.For?
    ensures AcceptsAfter(EmitStmt(s, st), AfterStmt(c, st))
    decreases st, 2
  {
    hide Matches, EmitExpr, ExprType, EmitFor, AfterStmts;
    ExprAccepted(s, c, st.lo);
    var l := EmitExpr(s, st.lo);
    if l.Ok? && l.value.ty == I64 {
      ExprAccepted(l.value.s, c, st.hi);
      var h := EmitExpr(l.value.s, st.hi);
      if h.Ok? && h.value.ty == I64 {
        ForBodyAccepted(h.value.s, c, st.name, st.inclusive, l.value.v, h.value.v, st.body);
      }
    }
  }

  lemma {:induction false} ForBodyAccepted(s: Em, c: Ctx, x: Name, inclusive: bool, lo: Operand, hi: Operand, body: seq<Stmt>)
    requires Matches(s, c)
    ensures AcceptsAfter(EmitFor(s, x, inclusive, lo, hi, body),
                         if AfterStmts(Bind(Inner(InLoop(c)), x, I64), body).Some? then Some(c) else None)
    decreases body, 4
  {
    hide Matches, EmitStmts, AfterStmts, Instr, ForHead, ForBody, ForTail, PopLoop, PopScope;
    var counter, limit := s.tmp + 1, s.tmp + 2;
    var s0 := Instr(Fresh(s, 2), Store(lo, counter));
    InstrAlike(Fresh(s, 2), Store(lo, counter));
    InstrAlike(s0, Store(hi, limit));
    var s1 := Instr(s0, Store(hi, limit));
    HeadAlike(s1, inclusive, counter, limit);
    var s2 := ForHead(s1, inclusive, counter, limit);
    MatchesAlike(s, s2, c);
    var incL, endL := s1.lbl + 3, s1.lbl + 4;
    ForBodyMatches(s2, c, x, counter, incL, endL);
    var b, inner := ForBody(s2, x, counter, incL, endL), Bind(Inner(InLoop(c)), x, I64);
    StmtsAccepted(b, inner, body);
    var s3 := EmitStmts(b, body);
    if s3.Ok? {
      ForLeft(s3.value, c, x, AfterStmts(inner, body).value);
      TailAlike(PopLoop(PopScope(s3.value)), counter, s1.lbl + 1, incL, endL);
      MatchesAlike(PopLoop(PopScope(s3.value)), ForTail(PopLoop(PopScope(s3.value)), counter, s1.lbl + 1, incL, endL), c);
    }
  }

  lemma HeadAlike(s: Em, inclusive: bool, counter: Slot, limit: Slot)
    ensures Alike(s, ForHead(s, inclusive, counter, limit))
  {
    SplitAlike(NewLabels(s, 4), Br(s.lbl + 1), s.lbl + 1);
    var s1 := Begin(Terminate(NewLabels(s, 4), Br(s.lbl + 1)), s.lbl + 1);
    TestAlike(s1, inclusive, counter, limit);
    var t := ForTest(s1, inclusive, counter, limit);
    SplitAlike(t.s, CondBr(t.v, s.lbl + 2, s.lbl + 4), s.lbl + 2);
    hide Begin, Terminate, ForTest;
  }

  lemma TestAlike(s: Em, inclusive: bool, counter: Slot, limit: Slot)
    ensures Alike(s, ForTest(s, inclusive, counter, limit).s)
  {
    var i := LoadFrom(s, counter, I64);
    LoadAlike(s, counter, I64);
    var h := LoadFrom(i.s, limit, I64);
    LoadAlike(i.s, limit, I64);
    InstrAlike(Fresh(h.s, 1), Arith(h.s.tmp + 1, if inclusive then Le else Lt, i.v, h.v));
    hide Instr, LoadFrom;
  }

  lemma ForBodyMatches(s: Em, c: Ctx, x: Name, counter: Slot, inc: Label, end: Label)
    requires Matches(s, c)
    ensures Matches(ForBody(s, x, counter, inc, end), Bind(Inner(InLoop(c)), x, I64))
  {
    LoopMatches(s, c, inc, end);
    PushMatches(PushLoop(s, inc, end), InLoop(c));
    var p := PushScope(PushLoop(s, inc, end));
    var s1 := DeclareLocal(p, x, I64);
    var cur := LoadFrom(s1, counter, I64);
    LoadAlike(s1, counter, I64);
    InstrAlike(cur.s, Store(cur.v, s1.tmp));
    hide Instr, LoadFrom;
    assert Alike(s1, ForBody(s, x, counter, inc, end));
    assert ScopeMatches(p.scopes[|p.scopes| - 1], map[]);
    DeclareMatches(p, Inner(InLoop(c)), x, I64);
    MatchesAlike(s1, ForBody(s, x, counter, inc, end), Bind(Inner(InLoop(c)), x, I64));
  }

  lemma DeclareMatches(s: Em, c: Ctx, x: Name, t: Ty)
    requires Matches(s, c)
    ensures Matches(DeclareLocal(s, x, t), Bind(c, x, t))
  {
    assert ScopeMatches(s.scopes[|c.scopes| - 1], c.scopes[|c.scopes| - 1]);
  }

  lemma ForLeft(s: Em, c: Ctx, x: Name, c1: Ctx)
    requires c.scopes != [] && Matches(s, c1) && Extends(Bind(Inner(InLoop(c)), x, I64), c1)
    ensures Matches(PopLoop(PopScope(s)), c)
  {
    var b, i := Bind(Inner(InLoop(c)), x, I64), Inner(InLoop(c));
    assert b.scopes[..|c.scopes|] == i.scopes[..|c.scopes|];
    PopMatches(s, InLoop(c), c1);
    LoopLeft(PopScope(s), c);
  }

  lemma TailAlike(s: Em, counter: Slot, cond: Label, inc: Label, end: Label)
    ensures Alike(s, ForTail(s, counter, cond, inc, end))
  {
    JoinAlike(s, inc, inc);
    var s1 := Begin(EndBranch(s, inc), inc);
    StepAlike(s1, counter);
    SplitAlike(ForStep(s1, counter), Br(cond), end);
    hide Begin, Terminate, EndBranch, ForStep;
  }

  lemma StepAlike(s: Em, counter: Slot)
    ensures Alike(s, ForStep(s, counter))
  {
    var cur := LoadFrom(s, counter, I64);
    LoadAlike(s, counter, I64);
    var s1 := Fresh(cur.s, 1);
    var add := Arith(s1.tmp, Add, cur.v, Const(IntV(1)));
    InstrAlike(s1, add);
    InstrAlike(Instr(s1, add), Store(Reg(s1.tmp), counter));
    hide Instr, LoadFrom;
  }

  lemma {:induction false} WithAccepted(s: Em, c: Ctx, st: Stmt)
    requires Matches(s, c) && st.With?
    ensures AcceptsAfter(EmitStmt(s, st), AfterStmt(c, st))
    decreases st, 2
  {
    hide Matches, EmitExpr, ExprType, EmitBlock, BlockOk, CreateArena, LeaveArena;
    ExprAccepted(s, c, st.size);
    var v := EmitExpr(s, st.size);
    if v.Ok? && v.value.ty == I64 {
      CreateAlike(v.value);
      MatchesAlike(v.value.s, CreateArena(v.value), c);
      BlockAccepted(CreateArena(v.value), c, st.body);
      var b := EmitBlock(CreateArena(v.value), st.body);
      if b.Ok? {
        LeaveArenaAlike(b.value);
        MatchesAlike(b.value, LeaveArena(b.value), c);
      }
    }
  }

  lemma CreateAlike(v: Emitted)
    ensures Alike(v.s, CreateArena(v))
  {
    var s := Fresh(v.s, 1);
    InstrAlike(s, ArenaCreate(s.tmp, v.v));
    hide Instr;
  }

  lemma LeaveArenaAlike(s: Em)
    ensures Alike(s, LeaveArena(s))
  {
    if s.arenas != [] {
      InstrAlike(s, ArenaDestroy(s.arenas[|s.arenas| - 1]));
      hide Instr;
    }
  }

  // ---------------------------------------------------------------- functions

  lemma {:induction false} ParamsMatch(s: Em, params: seq<(Name, Ty)>, i: nat)
    requires i <= |params| && Matches(s, Ctx([ParamTypes(params[..i])], 0, s.ret))
    ensures Matches(EmitParams(s, params, i), Ctx([ParamTypes(params)], 0, s.ret))
    decreases |params| - i
  {
    hide Instr;
    if i == |params| {
      assert params[..i] == params;
    } else {
      var c := Ctx([ParamTypes(params[..i])], 0, s.ret);
      var s1 := DeclareLocal(s, params[i].0, params[i].1);
      DeclareMatches(s, c, params[i].0, params[i].1);
      assert params[..i + 1][..i] == params[..i] && params[..i + 1][i] == params[i];
      assert Bind(c, params[i].0, params[i].1) == Ctx([ParamTypes(params[..i + 1])], 0, s.ret);
      InstrAlike(s1, Store(Reg(-1 - i), s1.tmp));
      var s2 := Instr(s1, Store(Reg(-1 - i), s1.tmp));
      hide Matches, DeclareLocal;
      MatchesAlike(s1, s2, Bind(c, params[i].0, params[i].1));
      assert s2.ret == s.ret by { DeclareRet(s, params[i].0, params[i].1); }
      ParamsMatch(s2, params, i + 1);
    }
  }

  lemma DeclareRet(s: Em, x: Name, t: Ty)
    ensures DeclareLocal(s, x, t).ret == s.ret
  {
  }

  lemma {:induction false} SplitAfter(c: Ctx, stmts: seq<Stmt>, last: Stmt)
    requires c.scopes != []
    ensures AfterStmts(c, stmts + [last]) ==
            var c1 := AfterStmts(c, stmts); if c1.None? then None else AfterStmt(c1.value, last)
    decreases stmts
  {
    hide AfterStmt;
    if stmts == [] {
      assert ([] + [last])[1..] == [];
    } else {
      var c1 := AfterStmt(c, stmts[0]);
      assert (stmts + [last])[1..] == stmts[1..] + [last];
      if c1.Some? {
        SplitAfter(c1.value, stmts[1..], last);
      }
    }
  }

  /** The last statement of a body, which may be emitted as a result or twice. */
  lemma LastAccepted(s: Em, c: Ctx, last: Stmt)
    requires Matches(s, c)
    ensures var r := if s.ret == Void || !IsExprStmt(last) then EmitStmt(s, last)
                     else if last.Eval? then LowerLast(s, last)
                     else LowerTwice(s, last);
            r.Ok? <==> AfterStmt(c, last).Some?
  {
    hide Matches, EmitStmt, AfterStmt;
    StmtAccepted(s, c, last);
    MatchesScopes(s, c);
    if s.ret != Void && IsExprStmt(last) {
      SameAfter(c, last);
      if last.Eval? {
        LastExpr(s, c, last);
      } else if EmitStmt(s, last).Ok? {
        StmtAccepted(EmitStmt(s, last).value, c, last);
      }
    }
  }

  function LowerLast(s: Em, last: Stmt): R<Em>
    requires last.Eval?
  {
    var v :- EmitExpr(s, last.e);
    if v.ty == v.s.ret then DoReturn(v) else EmitStmt(v.s, last)
  }

  function LowerTwice(s: Em, last: Stmt): R<Em> {
    var s2 :- EmitStmt(s, last);
    EmitStmt(s2, last)
  }

  lemma SameAfter(c: Ctx, last: Stmt)
    requires c.scopes != [] && IsExprStmt(last)
    ensures AfterStmt(c, last).Some? ==> AfterStmt(c, last) == Some(c)
  {
    hide ExprType, ItemOk, TypeOfName;
  }

  lemma LastExpr(s: Em, c: Ctx, last: Stmt)
    requires Matches(s, c) && last.Eval? && s.ret != Void
    ensures LowerLast(s, last).Ok? <==> AfterStmt(c, last).Some?
  {
    hide EmitExpr, ExprType, DoReturn, EmitStmt, Matches;
    ExprAccepted(s, c, last.e);
    var v := EmitExpr(s, last.e);
    if v.Ok? {
      StmtAccepted(v.value.s, c, last);
      ReturnAccepted(v.value, c);
      SameRet(v.value.s, s, c);
    }
  }

  lemma SameRet(a: Em, b: Em, c: Ctx)
    requires Matches(a, c) && Matches(b, c)
    ensures a.ret == b.ret == c.ret
  {
  }

  /** The emitter accepts a function if and only if it is well typed. */
  lemma AcceptsWellTyped(f: Function)
    ensures EmitFunction(f).Ok? <==> WellTyped(f)
  {
    hide Matches, EmitStmts, EmitStmt, AfterStmts, AfterStmt, EmitParams, EndBody, EmitExpr, DoReturn, ParamTypes;
    var s0, c := EMPTY_EM.(ret := f.ret), Ctx([ParamTypes(f.params)], 0, f.ret);
    EntryMatches(f);
    var s := EmitParams(s0, f.params, 0);
    if f.body == [] {
      assert AfterStmts(c, []) == Some(c) by { NoStmts(c); }
    } else {
      var n := |f.body| - 1;
      var front, last := f.body[..n], f.body[n];
      assert f.body == front + [last];
      SplitAfter(c, front, last);
      StmtsAccepted(s, c, front);
      var s1 := EmitStmts(s, front);
      if s1.Ok? {
        LastAccepted(s1.value, AfterStmts(c, front).value, last);
      }
    }
  }

  lemma NoStmts(c: Ctx)
    requires c.scopes != []
    ensures AfterStmts(c, []) == Some(c)
  {
  }

  lemma EntryMatches(f: Function)
    ensures Matches(EmitParams(EMPTY_EM.(ret := f.ret), f.params, 0), Ctx([ParamTypes(f.params)], 0, f.ret))
  {
    var s := EMPTY_EM.(ret := f.ret);
    assert f.params[..0] == [];
    assert ScopeMatches(s.scopes[0], map[]);
    assert Matches(s, Ctx([ParamTypes(f.params[..0])], 0, s.ret));
    ParamsMatch(s, f.params, 0);
  }
}
