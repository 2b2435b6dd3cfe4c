/** The emitter itself: an object that appends lines, numbers registers, slots and labels, and pushes and pops its scopes,
    loops and arenas. Each method is proved to do what the function of the same step in `EmitSpec` says. */
module Emitter {
  import opened Wrappers
  import opened UbelSyntax
  import opened UbelSource
  import opened BlockCode
  import opened UbelTypes
  import opened EmitAccepts
  import Spec = EmitSpec
  import opened EmitSpec

  /** An operand with its type. */
  datatype Val = Val(v: Operand, ty: Ty)

  class Emitter {
    var body: Code
    var tmp: nat
    var lbl: nat
    var terminated: bool
    var scopes: seq<map<Name, Local>>
    var loops: seq<LoopCtx>
    var arenas: seq<Reg>
    var ret: Ty

    function St(): Em
      reads this
    {
      Em(body, tmp, lbl, terminated, scopes, loops, arenas, ret)
    }

    constructor (ret: Ty)
      ensures St() == EMPTY_EM.(ret := ret)
    {
      body, tmp, lbl, terminated := [], 0, 0, false;
      scopes, loops, arenas := [map[]], [], [];
      this.ret := ret;
    }

    // -------------------------------------------------------------- low-level emission

    method NewTemp() returns (t: nat)
      modifies this
      ensures St() == Spec.Fresh(old(St()), 1) && t == tmp
    {
      tmp := tmp + 1;
      t := tmp;
    }

    method NewLabel() returns (l: Label)
      modifies this
      ensures St() == NewLabels(old(St()), 1) && l == lbl
    {
      lbl := lbl + 1;
      l := lbl;
    }

    method Begin(l: Label)
      modifies this
      ensures St() == Spec.Begin(old(St()), l)
    {
      if !terminated {
        body := body + [TermLine(Br(l))];
      }
      body := body + [LabelLine(l)];
      terminated := false;
    }

    method OpenIfDead()
      modifies this
      ensures St() == Spec.OpenIfDead(old(St()))
    {
      if terminated {
        var l := NewLabel();
        Begin(l);
      }
    }

    method Inst(i: Inst)
      modifies this
      ensures St() == Instr(old(St()), i)
    {
      OpenIfDead();
      body := body + [InstLine(i)];
    }

    method Term(t: Term)
      modifies this
      ensures St() == Terminate(old(St()), t)
    {
      OpenIfDead();
      body := body + [TermLine(t)];
      terminated := true;
    }

    method Declare(x: Name, ty: Ty) returns (slot: Slot)
      modifies this
      ensures St() == DeclareLocal(old(St()), x, ty) && slot == tmp
    {
      slot := NewTemp();
      if scopes != [] {
        var k := |scopes| - 1;
        scopes := scopes[k := scopes[k][x := Local(slot, ty)]];
      }
    }

    /** The innermost local of a name. */
    method Lookup(x: Name) returns (l: Option<Local>)
      ensures l == FindLocal(scopes, x)
    {
      var k: nat := |scopes|;
      assert scopes[..k] == scopes;
      while k > 0
        invariant k <= |scopes|
        invariant FindLocal(scopes, x) == FindLocal(scopes[..k], x)
      {
        k := k - 1;
        if x in scopes[k] {
          return Some(scopes[k][x]);
        }
        assert scopes[..k + 1][..k] == scopes[..k];
      }
      l := None;
    }

    method DestroyArenasFrom(depth: nat)
      modifies this
      ensures St() == Spec.DestroyArenasFrom(old(St()), depth)
    {
      var k: nat := |arenas|;
      while k > depth
        invariant k <= |arenas|
        invariant Spec.DestroyArenasFrom(old(St()), depth) == DestroyDown(St(), k, depth)
      {
        Inst(ArenaDestroy(arenas[k - 1]));
        k := k - 1;
      }
    }

    // -------------------------------------------------------------- expressions

    method Load(slot: Slot, ty: Ty) returns (r: Val)
      modifies this
      ensures LoadFrom(old(St()), slot, ty) == Emitted(St(), r.v, r.ty)
    {
      hide Instr;
      var t := NewTemp();
      Inst(BlockCode.Inst.Load(t, slot));
      r := Val(Reg(t), ty);
    }

    method Expr(e: Expr) returns (r: R<Val>)
      modifies this
      ensures EmitExpr(old(St()), e) == if r.Ok? then Ok(Emitted(St(), r.value.v, r.value.ty)) else R.Err
      decreases e, 1
    {
      hide EmitUnary, EmitBinop, EmitLogic, EmitValueArms, FindLocal, LoadFrom, Spec.Begin;
      match e {
        case IntLit(n) => r := Ok(Val(Const(IntV(n)), I64));
        case BoolLit(b) => r := Ok(Val(Const(BoolV(b)), I1));
        case Var(x) =>
          var l := Lookup(x);
          if l.None? {
            return R.Err;
          }
          var v := Load(l.value.slot, l.value.ty);
          assert LoadFrom(old(St()), l.value.slot, l.value.ty) == EmitExpr(old(St()), e).value by {
            VarForm(old(St()), x);
          }
          r := Ok(v);
        case Unary(op, e1) =>
          var v :- Expr(e1);
          r := UnaryOp(v, op);
        case Binary(op, lhs, rhs) =>
          var l :- Expr(lhs);
          var rv :- Expr(rhs);
          r := BinaryOp(op, l, rv);
        case Logic(_, _, _) => r := ShortCircuit(e);
        case IfValue(arms) => r := IfValue(arms);
      }
    }

    method UnaryOp(v: Val, op: UnaryOp) returns (r: R<Val>)
      modifies this
      ensures EmitUnary(Emitted(old(St()), v.v, v.ty), op) == if r.Ok? then Ok(Emitted(St(), r.value.v, r.value.ty)) else R.Err
    {
      hide Instr;
      var t := NewTemp();
      match op {
        case Neg =>
          if v.ty != I64 {
            return R.Err;
          }
          Inst(Arith(t, Sub, ZERO, v.v));
        case BitNot =>
          if v.ty != I64 {
            return R.Err;
          }
          Inst(Arith(t, BitXor, v.v, Const(IntV(-1))));
        case Not =>
          if v.ty != I1 {
            return R.Err;
          }
          Inst(Arith(t, BitXor, v.v, Const(BoolV(true))));
      }
      r := Ok(Val(Reg(t), v.ty));
    }

    method BinaryOp(op: BinOp, l: Val, r: Val) returns (q: R<Val>)
      modifies this
      ensures EmitBinop(old(St()), op, l.v, l.ty, r.v, r.ty) == if q.Ok? then Ok(Emitted(St(), q.value.v, q.value.ty)) else R.Err
    {
      hide Instr, EmitDivision;
      if l.ty != r.ty || l.ty == Void {
        return R.Err;
      }
      var t := NewTemp();
      match op {
        case BitAnd =>
          Inst(Arith(t, op, l.v, r.v));
          return Ok(Val(Reg(t), l.ty));
        case BitOr =>
          Inst(Arith(t, op, l.v, r.v));
          return Ok(Val(Reg(t), l.ty));
        case BitXor =>
          Inst(Arith(t, op, l.v, r.v));
          return Ok(Val(Reg(t), l.ty));
        case Eq =>
          Inst(Arith(t, op, l.v, r.v));
          return Ok(Val(Reg(t), I1));
        case Ne =>
          Inst(Arith(t, op, l.v, r.v));
          return Ok(Val(Reg(t), I1));
        case Div => q := Division(op, l, r, t);
        case Rem => q := Division(op, l, r, t);
        case _ =>
          if l.ty != I64 {
            return R.Err;
          }
          Inst(Arith(t, op, l.v, r.v));
          return Ok(Val(Reg(t), if op in {Lt, Le, Gt, Ge} then I1 else I64));
      }
    }

    /** The division guarded by a test for zero; `t` is the register of its result. */
    method Division(op: BinOp, l: Val, r: Val, t: nat) returns (q: R<Val>)
      requires t == tmp
      modifies this
      ensures (if l.ty == I64 then Ok(EmitDivision(old(St()), op, l.v, r.v)) else R.Err) ==
              if q.Ok? then Ok(Emitted(St(), q.value.v, q.value.ty)) else R.Err
    {
      hide Instr, Terminate, Spec.Begin;
      if l.ty != I64 {
        return R.Err;
      }
      var zero := NewTemp();
      Inst(Arith(zero, Eq, r.v, ZERO));
      var bad := NewLabel();
      var ok := NewLabel();
      Term(CondBr(Reg(zero), bad, ok));
      Begin(bad);
      Inst(CallTrap(DivZero));
      Term(Unreachable);
      Begin(ok);
      Inst(Arith(t, op, l.v, r.v));
      q := Ok(Val(Reg(t), I64));
    }

    method ShortCircuit(e: Expr) returns (r: R<Val>)
      requires e.Logic?
      modifies this
      ensures EmitLogic(old(St()), e) == if r.Ok? then Ok(Emitted(St(), r.value.v, r.value.ty)) else R.Err
      decreases e, 0
    {
      hide EmitExpr, Instr, Terminate, Spec.Begin, LoadFrom;
      var slot := NewTemp();
      var l :- Expr(e.lhs);
      if l.ty != I1 {
        return R.Err;
      }
      Inst(Store(l.v, slot));
      var rhs := NewLabel();
      var end := NewLabel();
      Term(if e.isAnd then CondBr(l.v, rhs, end) else CondBr(l.v, end, rhs));
      Begin(rhs);
      var rv :- Expr(e.rhs);
      if rv.ty != I1 {
        return R.Err;
      }
      Inst(Store(rv.v, slot));
      Term(Br(end));
      Begin(end);
      var v := Load(slot, I1);
      r := Ok(v);
    }

    method IfValue(arms: ValueArms) returns (r: R<Val>)
      modifies this
      ensures EmitExpr(old(St()), UbelSyntax.Expr.IfValue(arms)) == if r.Ok? then Ok(Emitted(St(), r.value.v, r.value.ty)) else R.Err
      decreases arms, 1
    {
      hide EmitValueArms, Spec.Begin, LoadFrom;
      var end := NewLabel();
      var slot :- ValueBranches(arms, end);
      Begin(end);
      var v := Load(slot.slot, slot.ty);
      r := Ok(v);
    }

    /** The arms of a value-`if`, one after the other. */
    method ValueBranches(arms: ValueArms, end: Label) returns (r: R<Local>)
      modifies this
      ensures EmitValueArms(old(St()), arms, end, None) == if r.Ok? then Ok((St(), r.value)) else R.Err
      decreases arms, 0
    {
      hide EmitExpr, EmitValueBranch, Terminate, Spec.Begin;
      var rest, slot := arms, None;
      while rest.ValueArm?
        invariant rest == arms || rest < arms
        invariant EmitValueArms(old(St()), arms, end, None) == EmitValueArms(St(), rest, end, slot)
        decreases rest
      {
        var c :- Expr(rest.cond);
        if c.ty != I1 {
          return R.Err;
        }
        var thenL := NewLabel();
        var elseL := NewLabel();
        Term(CondBr(c.v, thenL, elseL));
        Begin(thenL);
        var l :- BranchValue(rest.branch, slot);
        if !terminated {
          Term(Br(end));
        }
        Begin(elseL);
        rest, slot := rest.others, Some(l);
      }
      r := BranchValue(rest.last, slot);
    }

    method BranchValue(b: ValueBranch, slot: Option<Local>) returns (r: R<Local>)
      modifies this
      ensures EmitValueBranch(old(St()), b, slot) == if r.Ok? then Ok((St(), r.value)) else R.Err
      decreases b, 0
    {
      hide EmitExpr, EmitStmts, StoreBranchValue;
      match b {
        case ValueExpr(e) =>
          var v :- Expr(e);
          r := StoreBranch(v, slot);
        case ValueBlock(stmts, e) =>
          scopes := scopes + [map[]];
          var _ :- Stmts(stmts);
          var v :- Expr(e);
          var l :- StoreBranch(v, slot);
          PopScopes();
          r := Ok(l);
      }
    }

    method PopScopes()
      modifies this
      ensures St() == PopScope(old(St()))
    {
      if scopes != [] {
        scopes := scopes[..|scopes| - 1];
      }
    }

    method StoreBranch(v: Val, slot: Option<Local>) returns (r: R<Local>)
      modifies this
      ensures StoreBranchValue(Emitted(old(St()), v.v, v.ty), slot) == if r.Ok? then Ok((St(), r.value)) else R.Err
    {
      hide Instr;
      if v.ty == Void {
        return R.Err;
      }
      match slot {
        case Some(l) =>
          if l.ty != v.ty {
            return R.Err;
          }
          Inst(Store(v.v, l.slot));
          r := Ok(l);
        case None =>
          var t := NewTemp();
          Inst(Store(v.v, t));
          r := Ok(Local(t, v.ty));
      }
    }

    // -------------------------------------------------------------- statements

    method Stmts(stmts: seq<Stmt>) returns (r: R<()>)
      modifies this
      ensures EmitStmts(old(St()), stmts) == if r.Ok? then Ok(St()) else R.Err
      decreases stmts, 0
    {
      hide EmitStmt;
      for i := 0 to |stmts|
        invariant EmitStmts(old(St()), stmts) == EmitStmts(St(), stmts[i..])
      {
        assert stmts[i..][0] == stmts[i] && stmts[i..][1..] == stmts[i + 1..];
        var _ :- Stmt(stmts[i]);
      }
      r := Ok(());
    }

    method Block(stmts: seq<Stmt>) returns (r: R<()>)
      modifies this
      ensures EmitBlock(old(St()), stmts) == if r.Ok? then Ok(St()) else R.Err
      decreases stmts, 1
    {
      hide EmitStmts;
      scopes := scopes + [map[]];
      var _ :- Stmts(stmts);
      PopScopes();
      r := Ok(());
    }

    method DoReturn(v: Option<Val>) returns (r: R<()>)
      modifies this
      ensures (match v
               case None => if old(ret) == Void then Ok(Terminate(Spec.DestroyArenasFrom(old(St()), 0), Ret([]))) else R.Err
               case Some(x) => Spec.DoReturn(Emitted(old(St()), x.v, x.ty))) == if r.Ok? then Ok(St()) else R.Err
    {
      hide Terminate, Spec.DestroyArenasFrom;
      match v {
        case None =>
          if ret != Void {
            return R.Err;
          }
          DestroyArenasFrom(0);
          Term(Ret([]));
        case Some(x) =>
          if ret == Void || x.ty != ret {
            return R.Err;
          }
          DestroyArenasFrom(0);
          Term(Ret([x.v]));
      }
      r := Ok(());
    }

    method Stmt(s: Stmt) returns (r: R<()>)
      modifies this
      ensures EmitStmt(old(St()), s) == if r.Ok? then Ok(St()) else R.Err
      decreases s, 1
    {
      hide EmitExpr, EmitBlock, EmitPrint, EmitArms, EmitWhile, EmitLoop, EmitFor, EmitAssign, FindLocal, Terminate;
      hide Spec.Begin, Spec.DoReturn, Spec.DestroyArenasFrom, CreateArena, Spec.LeaveArena, StoreNew;
      match s {
        case Let(x, e) =>
          var v :- Expr(e);
          r := StoreLet(v, x);
        case Assign(x, aop, e) =>
          var l := Lookup(x);
          if l.None? {
            return R.Err;
          }
          var v :- Expr(e);
          r := StoreAssign(v, l.value, aop);
        case Eval(e) =>
          var _ :- Expr(e);
          r := Ok(());
        case Print(items) => r := PrintItems(items);
        case Return(NoResult) => r := DoReturn(None);
        case Return(Result(e)) =>
          var v :- Expr(e);
          r := DoReturn(Some(v));
        case If(arms) => r := IfStmt(arms);
        case While(_, _) => r := WhileStmt(s);
        case Loop(b) => r := LoopStmt(b);
        case For(x, inclusive, lo, hi, b) =>
          var l :- Expr(lo);
          if l.ty != I64 {
            return R.Err;
          }
          var h :- Expr(hi);
          if h.ty != I64 {
            return R.Err;
          }
          r := ForStmt(x, inclusive, l.v, h.v, b);
        case Break =>
          if loops == [] {
            return R.Err;
          }
          var ctx := loops[|loops| - 1];
          DestroyArenasFrom(ctx.depth);
          Term(Br(ctx.brk));
          r := Ok(());
        case Continue =>
          if loops == [] {
            return R.Err;
          }
          var ctx := loops[|loops| - 1];
          DestroyArenasFrom(ctx.depth);
          Term(Br(ctx.cont));
          r := Ok(());
        case With(_, _) => r := WithArena(s);
      }
    }

    method StoreLet(v: Val, x: Name) returns (r: R<()>)
      modifies this
      ensures (if v.ty == Void then R.Err else Ok(StoreNew(Emitted(old(St()), v.v, v.ty), x))) == if r.Ok? then Ok(St()) else R.Err
    {
      hide Instr, DeclareLocal;
      if v.ty == Void {
        return R.Err;
      }
      var slot := Declare(x, v.ty);
      Inst(Store(v.v, slot));
      r := Ok(());
    }

    method StoreAssign(v: Val, l: Local, aop: AssignOp) returns (r: R<()>)
      modifies this
      ensures EmitAssign(Emitted(old(St()), v.v, v.ty), l, aop) == if r.Ok? then Ok(St()) else R.Err
    {
      hide Instr, EmitBinop, LoadFrom;
      match aop {
        case Plain =>
          if v.ty != l.ty {
            return R.Err;
          }
          Inst(Store(v.v, l.slot));
        case Compound(op) =>
          if op in {Eq, Ne, Lt, Le, Gt, Ge} {
            return R.Err;
          }
          var cur := Load(l.slot, l.ty);
          var stored :- BinaryOp(op, cur, v);
          Inst(Store(stored.v, l.slot));
      }
      r := Ok(());
    }

    method WithArena(s: Stmt) returns (r: R<()>)
      requires s.With?
      modifies this
      ensures EmitStmt(old(St()), s) == if r.Ok? then Ok(St()) else R.Err
      decreases s, 0
    {
      hide EmitExpr, EmitBlock, Instr, Spec.LeaveArena;
      var v :- Expr(s.size);
      if v.ty != I64 {
        return R.Err;
      }
      var a := NewTemp();
      Inst(ArenaCreate(a, v.v));
      arenas := arenas + [a];
      var _ :- Block(s.body);
      LeaveArena();
      r := Ok(());
    }

    method LeaveArena()
      modifies this
      ensures St() == Spec.LeaveArena(old(St()))
    {
      if arenas != [] {
        var k := |arenas| - 1;
        if !terminated {
          Inst(ArenaDestroy(arenas[k]));
        }
        arenas := arenas[..k];
      }
    }

    /** Every piece is evaluated before the first one is printed. */
    method PrintItems(items: seq<Item>) returns (r: R<()>)
      modifies this
      ensures EmitPrint(old(St()), items, []) == if r.Ok? then Ok(St()) else R.Err
      decreases items, 1
    {
      hide EmitItem, Spec.PrintReady;
      var ready := [];
      for i := 0 to |items|
        invariant EmitPrint(old(St()), items, []) == EmitPrint(St(), items[i..], ready)
      {
        assert items[i..][0] == items[i] && items[i..][1..] == items[i + 1..];
        var x :- ReadyItem(items[i]);
        ready := ready + [x];
      }
      for i := 0 to |ready|
        invariant EmitPrint(old(St()), items, []) == Ok(EmitReady(St(), ready[i..]))
      {
        assert ready[i..][0] == ready[i] && ready[i..][1..] == ready[i + 1..];
        PrintReady(ready[i]);
      }
      r := Ok(());
    }

    method ReadyItem(item: Item) returns (r: R<Ready>)
      modifies this
      ensures EmitItem(old(St()), item) == if r.Ok? then Ok((St(), r.value)) else R.Err
      decreases item, 0
    {
      hide EmitExpr;
      match item {
        case Text(t) => r := Ok(ReadyText(t));
        case Piece(e) =>
          var v :- Expr(e);
          if v.ty == Void {
            return R.Err;
          }
          r := Ok(ReadyValue(v.v, v.ty));
      }
    }

    method PrintReady(x: Ready)
      modifies this
      ensures St() == Spec.PrintReady(old(St()), x)
    {
      hide Instr;
      match x {
        case ReadyText(t) =>
          if t != "" {
            Inst(PrintStr(t));
          }
        case ReadyValue(v, ty) =>
          if ty == I64 {
            Inst(PrintI64(v));
          } else {
            var z := NewTemp();
            Inst(Zext(z, v));
            Inst(PrintBool(Reg(z)));
          }
      }
    }

    method IfStmt(arms: Arms) returns (r: R<()>)
      modifies this
      ensures EmitStmt(old(St()), If(arms)) == if r.Ok? then Ok(St()) else R.Err
      decreases arms, 1
    {
      hide EmitArms, Spec.Begin;
      var end := NewLabel();
      var _ :- Branches(arms, end);
      Begin(end);
      r := Ok(());
    }

    /** The arms of an `if` statement, one after the other. */
    method Branches(arms: Arms, end: Label) returns (r: R<()>)
      modifies this
      ensures EmitArms(old(St()), arms, end) == if r.Ok? then Ok(St()) else R.Err
      decreases arms, 0
    {
      hide EmitExpr, EmitBranch, Terminate, Spec.Begin;
      var rest := arms;
      while rest.Arm?
        invariant rest == arms || rest < arms
        invariant EmitArms(old(St()), arms, end) == EmitArms(St(), rest, end)
        decreases rest
      {
        var c :- Expr(rest.cond);
        if c.ty != I1 {
          return R.Err;
        }
        var thenL := NewLabel();
        var elseL := NewLabel();
        Term(CondBr(c.v, thenL, elseL));
        Begin(thenL);
        var _ :- BranchStmt(rest.branch);
        if !terminated {
          Term(Br(end));
        }
        Begin(elseL);
        rest := rest.others;
      }
      if rest.Else? {
        var _ :- BranchStmt(rest.last);
      }
      r := Ok(());
    }

    method BranchStmt(b: Branch) returns (r: R<()>)
      modifies this
      ensures EmitBranch(old(St()), b) == if r.Ok? then Ok(St()) else R.Err
      decreases b, 0
    {
      hide EmitStmt, EmitBlock;
      match b {
        case Block(stmts) => r := Block(stmts);
        case Single(s) =>
          if !IsExprStmt(s) {
            return R.Err;
          }
          r := Stmt(s);
      }
    }

    // -------------------------------------------------------------- loops

    method EnterLoop(cont: Label, brk: Label)
      modifies this
      ensures St() == PushLoop(old(St()), cont, brk)
    {
      loops := loops + [LoopCtx(cont, brk, |arenas|)];
    }

    method ExitLoop()
      modifies this
      ensures St() == PopLoop(old(St()))
    {
      if loops != [] {
        loops := loops[..|loops| - 1];
      }
    }

    method WhileStmt(s: Stmt) returns (r: R<()>)
      requires s.While?
      modifies this
      ensures EmitWhile(old(St()), s) == if r.Ok? then Ok(St()) else R.Err
      decreases s, 0
    {
      hide EmitExpr, EmitBlock, Terminate, Spec.Begin, PushLoop, PopLoop;
      var condL := NewLabel();
      var bodyL := NewLabel();
      var endL := NewLabel();
      Term(Br(condL));
      Begin(condL);
      var c :- Expr(s.cond);
      if c.ty != I1 {
        return R.Err;
      }
      Term(CondBr(c.v, bodyL, endL));
      Begin(bodyL);
      EnterLoop(condL, endL);
      var _ :- Block(s.body);
      ExitLoop();
      if !terminated {
        Term(Br(condL));
      }
      Begin(endL);
      r := Ok(());
    }

    method LoopStmt(b: seq<Stmt>) returns (r: R<()>)
      modifies this
      ensures EmitLoop(old(St()), b) == if r.Ok? then Ok(St()) else R.Err
      decreases b, 2
    {
      hide EmitBlock, Terminate, Spec.Begin, PushLoop, PopLoop;
      var bodyL := NewLabel();
      var endL := NewLabel();
      Term(Br(bodyL));
      Begin(bodyL);
      EnterLoop(bodyL, endL);
      var _ :- Block(b);
      ExitLoop();
      if !terminated {
        Term(Br(bodyL));
      }
      Begin(endL);
      r := Ok(());
    }

    method ForStmt(x: Name, inclusive: bool, lo: Operand, hi: Operand, b: seq<Stmt>) returns (r: R<()>)
      modifies this
      ensures EmitFor(old(St()), x, inclusive, lo, hi, b) == if r.Ok? then Ok(St()) else R.Err
      decreases b, 2
    {
      hide EmitStmts, Instr, Terminate, Spec.Begin, PushLoop, PopLoop, PushScope, PopScope, Spec.ForHead, Spec.ForBody, Spec.ForTail;
      var counter := NewTemp();
      var limit := NewTemp();
      Inst(Store(lo, counter));
      Inst(Store(hi, limit));
      var condL: Label := lbl + 1;
      ForHead(inclusive, counter, limit);
      ForBody(x, counter, condL + 2, condL + 3);
      var _ :- Stmts(b);
      PopScopes();
      ExitLoop();
      ForTail(counter, condL, condL + 2, condL + 3);
      r := Ok(());
    }

    method ForHead(inclusive: bool, counter: Slot, limit: Slot)
      modifies this
      ensures St() == Spec.ForHead(old(St()), inclusive, counter, limit)
    {
      hide Terminate, Spec.Begin, Spec.ForTest;
      var condL := NewLabel();
      var bodyL := NewLabel();
      var incL := NewLabel();
      var endL := NewLabel();
      Term(Br(condL));
      Begin(condL);
      var c := ForTest(inclusive, counter, limit);
      Term(CondBr(c.v, bodyL, endL));
      Begin(bodyL);
    }

    method ForTest(inclusive: bool, counter: Slot, limit: Slot) returns (r: Val)
      modifies this
      ensures Spec.ForTest(old(St()), inclusive, counter, limit) == Emitted(St(), r.v, r.ty)
    {
      hide Instr, LoadFrom;
      var i := Load(counter, I64);
      var h := Load(limit, I64);
      var c := NewTemp();
      Inst(Arith(c, if inclusive then Le else Lt, i.v, h.v));
      r := Val(Reg(c), I1);
    }

    method ForBody(x: Name, counter: Slot, inc: Label, end: Label)
      modifies this
      ensures St() == Spec.ForBody(old(St()), x, counter, inc, end)
    {
      hide Instr, LoadFrom, DeclareLocal;
      EnterLoop(inc, end);
      scopes := scopes + [map[]];
      var slot := Declare(x, I64);
      var cur := Load(counter, I64);
      Inst(Store(cur.v, slot));
    }

    method ForTail(counter: Slot, cond: Label, inc: Label, end: Label)
      modifies this
      ensures St() == Spec.ForTail(old(St()), counter, cond, inc, end)
    {
      hide Instr, Terminate, Spec.Begin, LoadFrom;
      if !terminated {
        Term(Br(inc));
      }
      Begin(inc);
      var cur := Load(counter, I64);
      var next := NewTemp();
      Inst(Arith(next, Add, cur.v, Const(IntV(1))));
      Inst(Store(Reg(next), counter));
      Term(Br(cond));
      Begin(end);
    }

    // -------------------------------------------------------------- functions

    /** The statements of a body; the last expression of a body with a result is its result. */
    method LowerStmts(stmts: seq<Stmt>) returns (r: R<()>)
      modifies this
      ensures LowerBody(old(St()), stmts) == if r.Ok? then Ok(St()) else R.Err
    {
      hide EmitStmt, EmitExpr, Spec.DoReturn;
      var n := |stmts|;
      if n == 0 {
        return Ok(());
      }
      var _ :- Stmts(stmts[..n - 1]);
      var last := stmts[n - 1];
      if ret != Void && IsExprStmt(last) {
        if last.Eval? {
          var v :- Expr(last.e);
          if v.ty == ret {
            r := DoReturn(Some(v));
            return;
          }
        } else {
          var _ :- Stmt(last);
        }
      }
      r := Stmt(last);
    }

    method EndStmts()
      modifies this
      ensures St() == EndBody(old(St()))
    {
      hide Instr, Terminate;
      if !terminated {
        if ret == Void {
          Term(Ret([]));
        } else {
          Inst(CallTrap(NoReturn));
          Term(Unreachable);
        }
      }
    }
  }

  lemma VarForm(s: Em, x: Name)
    requires FindLocal(s.scopes, x).Some?
    ensures EmitExpr(s, Var(x)) == Ok(LoadFrom(s, FindLocal(s.scopes, x).value.slot, FindLocal(s.scopes, x).value.ty))
  {
    hide Instr;
  }

  /** Lowers one function with a fresh emitter, and refuses it exactly when it is not well typed. */
  method Lower(f: Function) returns (r: R<Code>)
    ensures r == EmitFunction(f)
    ensures r.Ok? <==> WellTyped(f)
  {
    hide WellTyped;
    AcceptsWellTyped(f);
    hide LowerBody, EndBody, Instr, DeclareLocal;
    var em := new Emitter(f.ret);
    for i := 0 to |f.params|
      invariant fresh(em)
      invariant EmitParams(EMPTY_EM.(ret := f.ret), f.params, 0) == EmitParams(em.St(), f.params, i)
    {
      var slot := em.Declare(f.params[i].0, f.params[i].1);
      em.Inst(Store(Reg(-1 - i), slot));
    }
    var _ :- em.LowerStmts(f.body);
    em.EndStmts();
    r := Ok(em.body);
  }
}
