/** Running the emitted code of an expression or a statement does what evaluating it does. */
module EmitCorrect {
  import opened Wrappers
  import opened UbelSyntax
  import opened UbelSource
  import opened BlockCode
  import opened EmitSpec
  import opened EmitStatic
  import opened EmitKeeps
  import opened EmitSim
  import opened EmitSteps
  import opened EmitFlow

  // ---------------------------------------------------------------- expressions

  lemma {:induction false} SimExpr(code: Code, s: Em, e: Expr, st: State, fuel: nat, f: Frame, base: nat)
    returns (n: nat, c: Config)
    requires Good(s, s) && EmitExpr(s, e).Ok? && Sim(s, st, f, base) && Ctx(code, s)
    requires Within(EmitExpr(s, e).value.s, code)
    ensures Runs(code, Running(f), n, c)
    ensures LandsExpr(code, s, EmitExpr(s, e).value, f, EvalExpr(e, st, fuel), c, base, fuel, n)
    decreases fuel, e, 2
  {
    hide Good, Ctx, Within, Begin, Instr, Terminate;
    match e {
      case IntLit(_) =>
        n, c := 0, Running(f);
        KeepsRefl(s, f);
      case BoolLit(_) =>
        n, c := 0, Running(f);
        KeepsRefl(s, f);
      case Var(x) => n, c := SimVar(code, s, x, st, fuel, f, base);
      case Unary(_, _) => n, c := SimUnaryExpr(code, s, e, st, fuel, f, base);
      case Binary(_, _, _) => n, c := SimBinaryExpr(code, s, e, st, fuel, f, base);
      case Logic(_, _, _) => n, c := SimLogicExpr(code, s, e, st, fuel, f, base);
      case IfValue(_) => n, c := SimIfExpr(code, s, e, st, fuel, f, base);
    }
  }

  lemma {:induction false} SimUnaryExpr(code: Code, s: Em, e: Expr, st: State, fuel: nat, f: Frame, base: nat)
    returns (n: nat, c: Config)
    requires e.Unary?
    requires Good(s, s) && EmitExpr(s, e).Ok? && Sim(s, st, f, base) && Ctx(code, s)
    requires Within(EmitExpr(s, e).value.s, code)
    ensures Runs(code, Running(f), n, c)
    ensures LandsExpr(code, s, EmitExpr(s, e).value, f, EvalExpr(e, st, fuel), c, base, fuel, n)
    decreases fuel, e, 1
  {
    hide Good, Within, Begin, Instr, Terminate, Lands, Keeps, Sim, OperateUnary, EmitUnary, Holds, Normal;
    var v := EmitExpr(s, e.operand).value;
    CtxLabels(code, s);
    ExprGood(s, e.operand);
    Refl(s, v.s);
    UnaryGood(v.s, v, e.uop);
    WithinBack(v.s, EmitExpr(s, e).value.s, code);
    n, c := SimExpr(code, s, e.operand, st, fuel, f, base);
    var res := EvalExpr(e.operand, st, fuel);
    var r := EmitExpr(s, e).value;
    if res.out.Yield? {
      YieldThrough(code, s, v, f, res, c, base, fuel, n);
      var n1, f1 := n, c.f;
      var n2;
      n2, c := SimUnary(code, v, e.uop, res.st, fuel, f1, base, res.out.v);
      ChainExpr(code, s, v.s, r, f, n1, f1, OfOp(OperateUnary(e.uop, res.out.v), res.st), c, base, fuel, n2);
      n := n1 + n2;
    } else {
      EarlyExpr(code, s, v, r, f, res, c, base, fuel, n);
    }
  }

  lemma YieldThrough(code: Code, s: Em, v: Emitted, f: Frame, res: Res, c: Config, base: nat, fuel: nat, n: nat)
    requires LandsExpr(code, s, v, f, res, c, base, fuel, n) && res.out.Yield?
    ensures c.Running? && Sim(v.s, res.st, c.f, base) && Keeps(s, f, c.f) && Holds(v.s, c.f, v.v, res.out.v, v.ty)
  {
    hide Sim, Keeps, Holds;
  }

  lemma {:induction false} SimBinaryExpr(code: Code, s: Em, e: Expr, st: State, fuel: nat, f: Frame, base: nat)
    returns (n: nat, c: Config)
    requires e.Binary?
    requires Good(s, s) && EmitExpr(s, e).Ok? && Sim(s, st, f, base) && Ctx(code, s)
    requires Within(EmitExpr(s, e).value.s, code)
    ensures Runs(code, Running(f), n, c)
    ensures LandsExpr(code, s, EmitExpr(s, e).value, f, EvalExpr(e, st, fuel), c, base, fuel, n)
    decreases fuel, e, 1
  {
    hide Good, Ctx, Within, Begin, Instr, Terminate, Lands, Keeps, Sim, Operate, EmitBinop, Holds, Normal;
    var l := EmitExpr(s, e.lhs).value;
    var r := EmitExpr(l.s, e.rhs).value;
    var v := EmitExpr(s, e).value;
    BinaryParts(code, s, e);
    n, c := SimExpr(code, s, e.lhs, st, fuel, f, base);
    var res1 := EvalExpr(e.lhs, st, fuel);
    if res1.out.Yield? {
      YieldThrough(code, s, l, f, res1, c, base, fuel, n);
      var n1, f1 := n, c.f;
      var n2;
      n2, c := SimExpr(code, l.s, e.rhs, res1.st, fuel, f1, base);
      var res2 := EvalExpr(e.rhs, res1.st, fuel);
      if res2.out.Yield? {
        YieldThrough(code, l.s, r, f1, res2, c, base, fuel, n2);
        var f2 := c.f;
        HoldsKept(l.s, r.s, f1, f2, l.v, res1.out.v, l.ty);
        var n3;
        n3, c := SimBinop(code, r.s, e.op, l.v, l.ty, r.v, r.ty, res2.st, fuel, f2, base, res1.out.v, res2.out.v);
        ChainExpr(code, l.s, r.s, v, f1, n2, f2, EvalExpr(e, st, fuel), c, base, fuel, n3);
        n2 := n2 + n3;
      } else {
        EarlyExpr(code, l.s, r, v, f1, res2, c, base, fuel, n2);
      }
      ChainExpr(code, s, l.s, v, f, n1, f1, EvalExpr(e, st, fuel), c, base, fuel, n2);
      n := n1 + n2;
    } else {
      EarlyExpr(code, s, l, v, f, res1, c, base, fuel, n);
    }
  }

  lemma BinaryParts(code: Code, s: Em, e: Expr)
    requires e.Binary?
    requires Good(s, s) && EmitExpr(s, e).Ok? && Ctx(code, s)
    requires Within(EmitExpr(s, e).value.s, code)
    ensures var l := EmitExpr(s, e.lhs).value;
            var r := EmitExpr(l.s, e.rhs).value;
            && Same(s, l.s) && Good(l.s, l.s) && Same(l.s, r.s) && Good(r.s, r.s) && l.s.tmp <= r.s.tmp
            && Within(l.s, code) && Within(r.s, code) && Ctx(code, l.s) && UniqueLabels(code)
  {
    var l := EmitExpr(s, e.lhs).value;
    var r := EmitExpr(l.s, e.rhs).value;
    hide Good, Within, Begin, Instr, Terminate;
    ExprGood(s, e.lhs);
    Refl(s, l.s);
    ExprGood(l.s, e.rhs);
    Refl(l.s, r.s);
    TmpGrows(l.s, r.s);
    BinopGood(r.s, r.s, e.op, l.v, l.ty, r.v, r.ty);
    WithinBack(r.s, EmitExpr(s, e).value.s, code);
    WithinBack(l.s, r.s, code);
    CtxGood(code, s, l.s);
  }

  // ---------------------------------------------------------------- short-circuit operators

  /** The states of the emitter around `&&` and `||`: the left operand, its store, the start of the right
      operand, that operand, its store, and the block where both meet. */
  datatype LogicStates = LogicStates(l: Emitted, stored: Em, split: Em, r: Emitted, last: Em, joined: Em)

  /** The steps of the emitter on a short-circuit expression. */
  ghost predicate LogicSteps(s: Em, e: Expr, x: LogicStates) {
    && e.Logic? && EmitExpr(Fresh(s, 1), e.lhs) == Ok(x.l) && x.l.ty == I1
    && x.stored == Instr(x.l.s, Store(x.l.v, s.tmp + 1))
    && x.split == SplitLogic(x.stored, e.isAnd, x.l.v)
    && EmitExpr(x.split, e.rhs) == Ok(x.r) && x.r.ty == I1
    && x.last == Instr(x.r.s, Store(x.r.v, s.tmp + 1))
    && x.joined == Begin(Terminate(x.last, Br(x.stored.lbl + 2)), x.stored.lbl + 2)
    && EmitExpr(s, e) == Ok(LoadFrom(x.joined, s.tmp + 1, I1))
  }

  function LogicTerm(isAnd: bool, x: LogicStates): Term {
    var end := x.stored.lbl + 2;
    if isAnd then CondBr(x.l.v, end - 1, end) else CondBr(x.l.v, end, end - 1)
  }

  ghost predicate LogicSound(s: Em, x: LogicStates) {
    && Good(s, s) && Same(s, x.l.s) && Good(x.l.s, x.l.s) && Same(s, x.stored)
    && Same(s, x.split) && Good(x.split, x.split) && Same(s, x.r.s) && Good(x.split, x.r.s) && Same(s, x.joined)
  }

  ghost predicate EndsWith(s: Em, l: Label) {
    |s.body| > 0 && s.body[|s.body| - 1] == LabelLine(l) && !s.terminated
  }

  /** How the states hang together in the finished code. */
  ghost predicate LogicShape(code: Code, s: Em, isAnd: bool, x: LogicStates) {
    && x.stored == Instr(x.l.s, Store(x.l.v, s.tmp + 1)) && x.last == Instr(x.r.s, Store(x.r.v, s.tmp + 1))
    && EndsWith(x.split, x.stored.lbl + 1) && EndsWith(x.joined, x.stored.lbl + 2)
    && Within(x.joined, code) && Within(Terminate(x.last, Br(x.stored.lbl + 2)), code) && Within(x.last, code)
    && Within(x.split, code) && Within(x.stored, code)
    && Within(Terminate(NewLabels(x.stored, 2), LogicTerm(isAnd, x)), code) && UniqueLabels(code)
  }

  lemma LogicForm(s: Em, e: Expr) returns (x: LogicStates)
    requires e.Logic? && EmitExpr(s, e).Ok?
    ensures LogicSteps(s, e, x)
  {
    hide Begin, Instr, Terminate, SplitLogic, LoadFrom;
    var l := EmitExpr(Fresh(s, 1), e.lhs).value;
    var stored := Instr(l.s, Store(l.v, s.tmp + 1));
    var split := SplitLogic(stored, e.isAnd, l.v);
    var r := EmitExpr(split, e.rhs).value;
    var last := Instr(r.s, Store(r.v, s.tmp + 1));
    x := LogicStates(l, stored, split, r, last, Begin(Terminate(last, Br(stored.lbl + 2)), stored.lbl + 2));
  }

  lemma LogicStays(s: Em, e: Expr, x: LogicStates)
    requires Good(s, s) && LogicSteps(s, e, x)
    ensures LogicSound(s, x) && Good(Fresh(s, 1), Fresh(s, 1)) && Same(s, Fresh(s, 1))
  {
    hide EmitExpr, Good, Pending, Begin, Instr, Terminate, SplitLogic, LoadFrom;
    FreshGood(s, s, 1);
    var f := Fresh(s, 1);
    Refl(s, f);
    ExprGood(f, e.lhs);
    GoodTrans(s, f, x.l.s);
    Refl(s, x.l.s);
    InstrGood(s, x.l.s, Store(x.l.v, s.tmp + 1));
    SplitGood(s, x.stored, e.isAnd, x.l.v);
    Refl(s, x.split);
    ExprGood(x.split, e.rhs);
    GoodTrans(s, x.split, x.r.s);
    PendingGrows(s, x.split, x.r.s, x.stored.lbl + 2);
    StoreJoinGood(s, x.r, s.tmp + 1, x.stored.lbl + 2);
  }

  lemma LogicPlaces(code: Code, s: Em, e: Expr, x: LogicStates)
    requires LogicSteps(s, e, x) && LogicSound(s, x) && UniqueLabels(code)
    requires Within(LoadFrom(x.joined, s.tmp + 1, I1).s, code)
    ensures LogicShape(code, s, e.isAnd, x) && Within(x.l.s, code) && Within(x.r.s, code)
  {
    hide EmitExpr, Good, Begin, Instr, Terminate, SplitLogic, LoadFrom, Within, EndsWith;
    LogicJoins(code, s, x);
    LogicSplits(code, s, e.isAnd, x);
  }

  /** The states stand in one context. */
  lemma LogicContext(s: Em, x: LogicStates)
    requires LogicSound(s, x)
    ensures x.stored.scopes == x.split.scopes == x.joined.scopes == x.r.s.scopes == s.scopes
    ensures x.stored.arenas == x.split.arenas == x.joined.arenas == x.r.s.arenas == s.arenas
  {
    hide Good;
    SameFields(s, x.stored);
    SameFields(s, x.split);
    SameFields(s, x.joined);
    SameFields(s, x.r.s);
  }

  lemma LogicJoins(code: Code, s: Em, x: LogicStates)
    requires x.last == Instr(x.r.s, Store(x.r.v, s.tmp + 1))
    requires x.joined == Begin(Terminate(x.last, Br(x.stored.lbl + 2)), x.stored.lbl + 2) && Good(x.split, x.r.s)
    requires Within(LoadFrom(x.joined, s.tmp + 1, I1).s, code)
    ensures Within(x.joined, code) && Within(Terminate(x.last, Br(x.stored.lbl + 2)), code) && Within(x.last, code)
    ensures Within(x.r.s, code) && Within(x.split, code) && EndsWith(x.joined, x.stored.lbl + 2)
  {
    var end := x.stored.lbl + 2;
    hide Good;
    InstrBody(Fresh(x.joined, 1), Load(x.joined.tmp + 1, s.tmp + 1));
    BeginEnds(Terminate(x.last, Br(end)), end);
    TermBody(x.last, Br(end));
    InstrBody(x.r.s, Store(x.r.v, s.tmp + 1));
    hide Begin, Instr, Terminate;
    PrefixTrans(x.joined.body, LoadFrom(x.joined, s.tmp + 1, I1).s.body, code);
    PrefixTrans(Terminate(x.last, Br(end)).body, x.joined.body, code);
    PrefixTrans(x.last.body, Terminate(x.last, Br(end)).body, code);
    PrefixTrans(x.r.s.body, x.last.body, code);
    WithinBack(x.split, x.r.s, code);
  }

  lemma LogicSplits(code: Code, s: Em, isAnd: bool, x: LogicStates)
    requires x.stored == Instr(x.l.s, Store(x.l.v, s.tmp + 1)) && x.split == SplitLogic(x.stored, isAnd, x.l.v)
    requires Within(x.split, code)
    ensures Within(Terminate(NewLabels(x.stored, 2), LogicTerm(isAnd, x)), code) && Within(x.stored, code)
    ensures Within(x.l.s, code) && EndsWith(x.split, x.stored.lbl + 1)
  {
    var br := Terminate(NewLabels(x.stored, 2), LogicTerm(isAnd, x));
    BeginEnds(br, x.stored.lbl + 1);
    TermBody(NewLabels(x.stored, 2), LogicTerm(isAnd, x));
    InstrBody(x.l.s, Store(x.l.v, s.tmp + 1));
    hide Begin, Instr, Terminate;
    PrefixTrans(br.body, x.split.body, code);
    PrefixTrans(x.stored.body, br.body, code);
    PrefixTrans(x.l.s.body, x.stored.body, code);
  }

  /** A value is stored in a new slot. */
  lemma SimKeep(code: Code, s: Em, at: Em, v: Operand, a: Value, st: State, f: Frame, base: nat) returns (f': Frame)
    requires Good(s, s) && Same(s, at) && Sim(at, st, f, base) && Within(Instr(at, Store(v, s.tmp + 1)), code)
    requires Readable(f, v) && Read(f, v) == a
    ensures Runs(code, Running(f), 1, Running(f')) && Keeps(s, f, f')
    ensures Sim(Instr(at, Store(v, s.tmp + 1)), st, f', base)
    ensures f'.slots == f.slots[s.tmp + 1 := a] && f'.regs == f.regs
  {
    FreeSlot(s, s.tmp + 1);
    hide Good, Within, Instr, Keeps, InScope;
    SimStore(code, s, at, v, s.tmp + 1, st, f, base);
    f' := f.(pc := f.pc + 1, slots := f.slots[s.tmp + 1 := a]);
    RunsStep(code, Running(f));
  }

  /** The left operand's value is stored and decides where to go. */
  lemma SimSplit(code: Code, s: Em, isAnd: bool, x: LogicStates, st: State, f: Frame, base: nat, b: bool)
    returns (f': Frame)
    requires LogicSound(s, x) && LogicShape(code, s, isAnd, x)
    requires Sim(x.l.s, st, f, base) && Readable(f, x.l.v) && Read(f, x.l.v) == BoolV(b)
    ensures Runs(code, Running(f), 2, Running(f')) && Keeps(s, f, f')
    ensures Sim(if b == isAnd then x.split else x.joined, st, f', base)
    ensures s.tmp + 1 in f'.slots && f'.slots[s.tmp + 1] == BoolV(b)
  {
    hide Good, Within, Instr, Terminate, Keeps, Sim;
    LogicContext(s, x);
    InstrBody(x.l.s, Store(x.l.v, s.tmp + 1));
    var f1 := SimKeep(code, s, x.l.s, x.l.v, BoolV(b), st, f, base);
    var to, end: Label := if b == isAnd then x.split else x.joined, x.stored.lbl + 2;
    SimNewLabels(x.stored, 2, st, f1, base);
    SimCondBr(code, NewLabels(x.stored, 2), x.l.v, b, if isAnd then end - 1 else end, if isAnd then end else end - 1,
              to, st, f1, base);
    f' := f1.(pc := |to.body|);
    RunsStep(code, Running(f1));
    RunsTrans(code, Running(f), 1, Running(f1), 1, Running(f'));
    KeepsSame(s, f, f1, f');
  }

  /** The right operand's value is stored and the blocks join. */
  lemma SimJoin(code: Code, s: Em, isAnd: bool, x: LogicStates, st: State, f: Frame, base: nat, b: bool)
    returns (f': Frame)
    requires LogicSound(s, x) && LogicShape(code, s, isAnd, x)
    requires Sim(x.r.s, st, f, base) && Readable(f, x.r.v) && Read(f, x.r.v) == BoolV(b)
    ensures Runs(code, Running(f), 2, Running(f')) && Keeps(s, f, f')
    ensures Sim(x.joined, st, f', base)
    ensures s.tmp + 1 in f'.slots && f'.slots[s.tmp + 1] == BoolV(b)
  {
    hide Good, Within, Instr, Terminate, Keeps, Sim;
    LogicContext(s, x);
    InstrBody(x.r.s, Store(x.r.v, s.tmp + 1));
    var f1 := SimKeep(code, s, x.r.s, x.r.v, BoolV(b), st, f, base);
    SimBr(code, x.last, x.stored.lbl + 2, x.joined, st, f1, base);
    f' := f1.(pc := |x.joined.body|);
    RunsStep(code, Running(f1));
    RunsTrans(code, Running(f), 1, Running(f1), 1, Running(f'));
    KeepsSame(s, f, f1, f');
  }

  /** The result is loaded from its slot, after `n` steps that led to where the blocks join. */
  lemma SimResult(code: Code, s: Em, joined: Em, slot: Slot, ty: Ty, f: Frame, n: nat, f1: Frame, base: nat,
                  v: Value, st: State, fuel: nat)
    returns (n': nat, c: Config)
    requires Same(s, joined) && Good(s, s) && Within(LoadFrom(joined, slot, ty).s, code)
    requires Runs(code, Running(f), n, Running(f1)) && Keeps(s, f, f1) && Sim(joined, st, f1, base)
    requires slot in f1.slots && f1.slots[slot] == v && HasType(v, ty)
    ensures Runs(code, Running(f), n', c)
    ensures LandsExpr(code, s, LoadFrom(joined, slot, ty), f, Res(Yield(v), st), c, base, fuel, n')
  {
    Refl(s, joined);
    hide Good, Within, Keeps, Sim, LoadFrom, Holds;
    SimLoad(code, joined, slot, ty, st, f1, base);
    var f2 := SetReg(f1, joined.tmp + 1, f1.slots[slot]);
    RunsStep(code, Running(f1));
    RunsTrans(code, Running(f), n, Running(f1), 1, Running(f2));
    KeepsTrans(s, joined, f, f1, f2);
    n', c := n + 1, Running(f2);
  }

  lemma {:induction false} SimLogicExpr(code: Code, s: Em, e: Expr, st: State, fuel: nat, f: Frame, base: nat)
    returns (n: nat, c: Config)
    requires e.Logic?
    requires Good(s, s) && EmitExpr(s, e).Ok? && Sim(s, st, f, base) && Ctx(code, s)
    requires Within(EmitExpr(s, e).value.s, code)
    ensures Runs(code, Running(f), n, c)
    ensures LandsExpr(code, s, EmitExpr(s, e).value, f, EvalExpr(e, st, fuel), c, base, fuel, n)
    decreases fuel, e, 1
  {
    hide EmitExpr, EmitLogic, Good, Within, Sim, Keeps, Holds, Lands, LogicSound, LogicShape, Fresh;
    var x := LogicForm(s, e);
    LogicStays(s, e, x);
    CtxLabels(code, s);
    LogicPlaces(code, s, e, x);
    n, c := SimLeft(code, s, e, x, st, fuel, f, base);
    hide LogicSteps;
    var res := EvalExpr(e.lhs, st, fuel);
    if res.out.Yield? {
      YieldThrough(code, s, x.l, f, res, c, base, fuel, n);
      BoolHeld(x.l.s, c.f, x.l.v, res.out.v);
      var n1, f1, b := n, c.f, res.out.v.b;
      var f2 := SimSplit(code, s, e.isAnd, x, res.st, f1, base, b);
      RunsTrans(code, Running(f), n1, Running(f1), 2, Running(f2));
      KeepsTrans(s, s, f, f1, f2);
      if b == e.isAnd {
        n, c := SimRight(code, s, e, x, res.st, fuel, f, n1 + 2, f2, base);
      } else {
        LogicEnds(s, e, x);
        n, c := SimResult(code, s, x.joined, s.tmp + 1, I1, f, n1 + 2, f2, base, BoolV(b), res.st, fuel);
      }
    } else {
      EarlyExpr(code, s, x.l, EmitExpr(s, e).value, f, res, c, base, fuel, n);
    }
  }

  lemma LogicEnds(s: Em, e: Expr, x: LogicStates)
    requires LogicSound(s, x) && LogicSteps(s, e, x)
    ensures Same(s, x.joined) && Same(s, x.split) && EmitExpr(s, e) == Ok(LoadFrom(x.joined, s.tmp + 1, I1))
    ensures x.l.ty == I1 && x.r.ty == I1
  {
    hide EmitExpr, Good;
  }

  lemma CtxLabels(code: Code, s: Em)
    requires Ctx(code, s)
    ensures UniqueLabels(code)
  {
  }

  lemma BoolHeld(s: Em, f: Frame, o: Operand, v: Value)
    requires Holds(s, f, o, v, I1)
    ensures v.BoolV? && Readable(f, o) && Read(f, o) == v
  {
  }

  /** The left operand of a short-circuit operator. */
  lemma {:induction false} SimLeft(code: Code, s: Em, e: Expr, x: LogicStates, st: State, fuel: nat, f: Frame, base: nat)
    returns (n: nat, c: Config)
    requires Good(s, s) && LogicSteps(s, e, x) && LogicSound(s, x) && Within(x.l.s, code) && Ctx(code, s)
    requires Sim(s, st, f, base) && Same(s, Fresh(s, 1)) && Good(Fresh(s, 1), Fresh(s, 1))
    ensures Runs(code, Running(f), n, c) && x.l.ty == I1
    ensures LandsExpr(code, s, x.l, f, EvalExpr(e.lhs, st, fuel), c, base, fuel, n)
    decreases fuel, e, 0
  {
    hide EmitExpr, Good, Within, Keeps, Holds, Lands, LogicSound, Rel;
    var s1 := Fresh(s, 1);
    KeepsRefl(s, f);
    CtxGood(code, s, s1);
    assert Rel(s1, st, f, base) by { RelFresh(s, 1, st, f, base); }
    n, c := SimExpr(code, s1, e.lhs, st, fuel, f, base);
    ChainExpr(code, s, s1, x.l, f, 0, f, EvalExpr(e.lhs, st, fuel), c, base, fuel, n);
  }

  /** The right operand of a short-circuit operator, which is the result. */
  lemma {:induction false} SimRight(code: Code, s: Em, e: Expr, x: LogicStates, st: State, fuel: nat, f: Frame, n: nat,
                                    f1: Frame, base: nat)
    returns (n': nat, c: Config)
    requires Good(s, s) && EmitExpr(s, e).Ok? && Within(EmitExpr(s, e).value.s, code) && Ctx(code, s)
    requires LogicSteps(s, e, x) && LogicSound(s, x) && LogicShape(code, s, e.isAnd, x) && Within(x.r.s, code)
    requires Runs(code, Running(f), n, Running(f1)) && Keeps(s, f, f1) && Sim(x.split, st, f1, base)
    ensures Runs(code, Running(f), n', c)
    ensures var r := EvalExpr(e.rhs, st, fuel);
            && (r.out.Yield? ==> r.out.v.BoolV?)
            && LandsExpr(code, s, EmitExpr(s, e).value, f, r, c, base, fuel, n')
    decreases fuel, e, 0
  {
    hide EmitExpr, Good, Within, Sim, Keeps, Holds, Lands, LogicShape;
    CtxGood(code, s, x.split);
    LogicEnds(s, e, x);
    var m;
    m, c := SimExpr(code, x.split, e.rhs, st, fuel, f1, base);
    hide Ctx, LogicSound, LogicSteps;
    var res := EvalExpr(e.rhs, st, fuel);
    ChainExpr(code, s, x.split, x.r, f, n, f1, res, c, base, fuel, m);
    n' := n + m;
    if res.out.Yield? {
      YieldThrough(code, s, x.r, f, res, c, base, fuel, n');
      BoolHeld(x.r.s, c.f, x.r.v, res.out.v);
      var f2 := c.f;
      var f3 := SimJoin(code, s, e.isAnd, x, res.st, f2, base, res.out.v.b);
      RunsTrans(code, Running(f), n', Running(f2), 2, Running(f3));
      KeepsTrans(s, s, f, f2, f3);
      n', c := SimResult(code, s, x.joined, s.tmp + 1, I1, f, n' + 2, f3, base, res.out.v, res.st, fuel);
    } else {
      EarlyExpr(code, s, x.r, EmitExpr(s, e).value, f, res, c, base, fuel, n');
    }
  }

  // ---------------------------------------------------------------- value-if

  ghost predicate Stored(f: Frame, l: Local, v: Value) {
    l.slot in f.slots && f.slots[l.slot] == v && HasType(v, l.ty)
  }

  /** A branch that leaves its value in the result slot `l`. */
  ghost predicate LandsSlot(code: Code, s: Em, s': Em, l: Local, f: Frame, res: Res, c: Config, base: nat, fuel: nat, n: nat) {
    && res.out != Done
    && Lands(code, s, s', f, res, c, base, fuel, n, |s.scopes|)
    && (res.out.Yield? ==> c.Running? && Stored(c.f, l, res.out.v))
  }

  /** The result slot was reserved after `s0` and is no variable. */
  ghost predicate SlotFree(s0: Em, s: Em, slot: Option<Local>) {
    slot.Some? ==> s0.tmp < slot.value.slot <= s.tmp && !InScope(s.scopes, slot.value.slot)
  }

  lemma ThroughSlot(code: Code, s: Em, s': Em, l: Local, f: Frame, res: Res, c: Config, base: nat, fuel: nat, n: nat)
    requires LandsSlot(code, s, s', l, f, res, c, base, fuel, n) && res.out.Yield?
    ensures c.Running? && Sim(s', res.st, c.f, base) && Keeps(s, f, c.f) && Stored(c.f, l, res.out.v)
  {
    hide Sim, Keeps, Stored;
  }

  lemma EarlySlot(code: Code, s: Em, s1: Em, s': Em, l1: Local, l: Local, f: Frame, res: Res, c: Config, base: nat,
                  fuel: nat, n: nat)
    requires LandsSlot(code, s, s1, l1, f, res, c, base, fuel, n) && !res.out.Yield?
    ensures LandsSlot(code, s, s', l, f, res, c, base, fuel, n)
  {
    hide Lands, Stored;
    LandsEarly(code, s, s1, s', f, res, c, base, fuel, n, |s.scopes|);
  }

  lemma ArriveSlot(code: Code, s: Em, s': Em, l: Local, f: Frame, v: Value, st: State, f': Frame, base: nat, fuel: nat, n: nat)
    requires Sim(s', st, f', base) && Keeps(s, f, f') && Stored(f', l, v)
    ensures LandsSlot(code, s, s', l, f, Res(Yield(v), st), Running(f'), base, fuel, n)
  {
    hide Sim, Keeps, Stored;
  }

  /** The branch value is stored. */
  lemma SimStoreBranch(code: Code, s0: Em, v: Emitted, slot: Option<Local>, a: Value, st: State, f: Frame, base: nat)
    returns (f': Frame)
    requires Good(v.s, v.s) && Sim(v.s, st, f, base) && StoreBranchValue(v, slot).Ok?
    requires Holds(v.s, f, v.v, a, v.ty) && s0.tmp <= v.s.tmp && SlotFree(s0, v.s, slot)
    requires Within(StoreBranchValue(v, slot).value.0, code)
    ensures Runs(code, Running(f), 1, Running(f')) && Keeps(s0, f, f')
    ensures Sim(StoreBranchValue(v, slot).value.0, st, f', base) && Stored(f', StoreBranchValue(v, slot).value.1, a)
  {
    hide Good, Within, Instr, Keeps, InScope, MatchEnv;
    var l := StoreBranchValue(v, slot).value.1;
    var s := if slot.Some? then v.s else Fresh(v.s, 1);
    if slot.None? {
      FreeSlot(v.s, l.slot);
      RelFresh(v.s, 1, st, f, base);
    }
    SimStore(code, s0, s, v.v, l.slot, st, f, base);
    f' := f.(pc := f.pc + 1, slots := f.slots[l.slot := a]);
    RunsStep(code, Running(f));
  }

  lemma KeepsWeaker(s0: Em, s: Em, f: Frame, f': Frame)
    requires Same(s0, s) && Keeps(s, f, f')
    ensures Keeps(s0, f, f')
  {
    hide InScope, Good;
    TmpGrows(s0, s);
  }

  lemma {:induction false} SimValueBranch(code: Code, s0: Em, s: Em, b: ValueBranch, slot: Option<Local>, st: State,
                                          fuel: nat, f: Frame, base: nat)
    returns (n: nat, c: Config)
    requires Same(s0, s) && Good(s, s) && EmitValueBranch(s, b, slot).Ok? && Sim(s, st, f, base) && Ctx(code, s)
    requires Within(EmitValueBranch(s, b, slot).value.0, code) && SlotFree(s0, s, slot)
    ensures Runs(code, Running(f), n, c)
    ensures var r := EmitValueBranch(s, b, slot).value;
            LandsSlot(code, s0, r.0, r.1, f, EvalValueBranch(b, st, fuel), c, base, fuel, n)
    decreases fuel, b, 3
  {
    match b {
      case ValueExpr(e) => n, c := SimValueExpr(code, s0, s, e, slot, st, fuel, f, base);
      case ValueBlock(stmts, e) => n, c := SimValueBlock(code, s0, s, b, slot, st, fuel, f, base);
    }
  }

  lemma SlotFreeGrows(s0: Em, s: Em, s': Em, slot: Option<Local>)
    requires SlotFree(s0, s, slot) && Good(s, s')
    ensures SlotFree(s0, s', slot) && s.tmp <= s'.tmp
  {
    TmpGrows(s, s');
    if slot.Some? && InScope(s'.scopes, slot.value.slot) {
      ScopeOfGrown(s, s', slot.value.slot);
    }
  }

  /** The slot of a stored branch value is not touched by the emitter's bookkeeping. */
  lemma StoreParts(code: Code, v: Emitted, slot: Option<Local>)
    requires Good(v.s, v.s) && StoreBranchValue(v, slot).Ok? && Within(StoreBranchValue(v, slot).value.0, code)
    ensures Within(v.s, code)
  {
    hide Good, Within, Instr;
    StoreBranchGood(v.s, v, slot);
    WithinBack(v.s, StoreBranchValue(v, slot).value.0, code);
  }

  lemma {:induction false} SimValueExpr(code: Code, s0: Em, s: Em, e: Expr, slot: Option<Local>, st: State,
                                        fuel: nat, f: Frame, base: nat)
    returns (n: nat, c: Config)
    requires Same(s0, s) && Good(s, s) && EmitExpr(s, e).Ok? && Sim(s, st, f, base) && Ctx(code, s)
    requires StoreBranchValue(EmitExpr(s, e).value, slot).Ok?
    requires Within(StoreBranchValue(EmitExpr(s, e).value, slot).value.0, code) && SlotFree(s0, s, slot)
    ensures Runs(code, Running(f), n, c)
    ensures var r := StoreBranchValue(EmitExpr(s, e).value, slot).value;
            LandsSlot(code, s0, r.0, r.1, f, EvalExpr(e, st, fuel), c, base, fuel, n)
    decreases fuel, e, 3
  {
    hide EmitExpr, Good, Within, Sim, Keeps, Holds, Lands, StoreBranchValue, SlotFree, Stored, Ctx;
    var v := EmitExpr(s, e).value;
    ExprGood(s, e);
    Refl(s, v.s);
    StoreParts(code, v, slot);
    n, c := SimExpr(code, s, e, st, fuel, f, base);
    var res, r := EvalExpr(e, st, fuel), StoreBranchValue(v, slot).value;
    KeepsRefl(s0, f);
    ChainExpr(code, s0, s, v, f, 0, f, res, c, base, fuel, n);
    if res.out.Yield? {
      YieldThrough(code, s0, v, f, res, c, base, fuel, n);
      var n1, f1 := n, c.f;
      SlotFreeGrows(s0, s, v.s, slot);
      TmpGrows(s0, s);
      var f2 := SimStoreBranch(code, s0, v, slot, res.out.v, res.st, f1, base);
      RunsTrans(code, Running(f), n1, Running(f1), 1, Running(f2));
      KeepsSelf(s0, f, f1, f2);
      n, c := n1 + 1, Running(f2);
      ArriveSlot(code, s0, r.0, r.1, f, res.out.v, res.st, f2, base, fuel, n);
    } else {
      LandsEarly(code, s0, v.s, r.0, f, res, c, base, fuel, n, |s0.scopes|);
    }
  }

  /** `Keeps` is transitive. */
  lemma KeepsSelf(s: Em, f0: Frame, f1: Frame, f2: Frame)
    requires Keeps(s, f0, f1) && Keeps(s, f1, f2)
    ensures Keeps(s, f0, f2)
  {
    hide InScope;
  }

  /** The states of the emitter in a value block. */
  ghost predicate BlockSteps(s: Em, b: ValueBranch, slot: Option<Local>, s1: Em, v: Emitted) {
    && b.ValueBlock? && EmitStmts(PushScope(s), b.stmts) == Ok(s1) && EmitExpr(s1, b.e) == Ok(v)
    && StoreBranchValue(v, slot).Ok?
    && EmitValueBranch(s, b, slot) == Ok((PopScope(StoreBranchValue(v, slot).value.0), StoreBranchValue(v, slot).value.1))
  }

  lemma BlockForm(s: Em, b: ValueBranch, slot: Option<Local>) returns (s1: Em, v: Emitted)
    requires b.ValueBlock? && EmitValueBranch(s, b, slot).Ok?
    ensures BlockSteps(s, b, slot, s1, v)
  {
    hide StoreBranchValue, PushScope, PopScope;
    s1 := EmitStmts(PushScope(s), b.stmts).value;
    v := EmitExpr(s1, b.e).value;
  }

  lemma BlockSound(code: Code, s: Em, b: ValueBranch, slot: Option<Local>, s1: Em, v: Emitted)
    requires Good(s, s) && Ctx(code, s) && BlockSteps(s, b, slot, s1, v)
    requires Within(EmitValueBranch(s, b, slot).value.0, code)
    ensures var p, r := PushScope(s), StoreBranchValue(v, slot).value;
            && Good(p, p) && Good(p, s1) && Good(s1, s1) && Same(s1, v.s) && Good(v.s, v.s) && Good(p, r.0) && Good(p, v.s)
            && Within(r.0, code) && Within(v.s, code) && Within(s1, code) && Ctx(code, p) && Ctx(code, s1)
            && |p.scopes| == |s1.scopes| == |s.scopes| + 1
  {
    hide EmitExpr, EmitStmts, EmitValueBranch, Good, StoreBranchValue;
    var p, r := PushScope(s), StoreBranchValue(v, slot).value;
    PushGood(s, s);
    StmtsGood(p, b.stmts);
    Refl(p, s1);
    ExprGood(s1, b.e);
    Refl(s1, v.s);
    GoodTrans(p, s1, v.s);
    StoreBranchGood(p, v, slot);
    SameFields(p, s1);
    StoreParts(code, v, slot);
    WithinBack(s1, v.s, code);
    CtxPush(code, s);
    CtxGood(code, p, s1);
  }

  lemma {:induction false} SimValueBlock(code: Code, s0: Em, s: Em, b: ValueBranch, slot: Option<Local>, st: State,
                                         fuel: nat, f: Frame, base: nat)
    returns (n: nat, c: Config)
    requires b.ValueBlock?
    requires Same(s0, s) && Good(s, s) && EmitValueBranch(s, b, slot).Ok? && Sim(s, st, f, base) && Ctx(code, s)
    requires Within(EmitValueBranch(s, b, slot).value.0, code) && SlotFree(s0, s, slot)
    ensures Runs(code, Running(f), n, c)
    ensures var r := EmitValueBranch(s, b, slot).value;
            LandsSlot(code, s0, r.0, r.1, f, EvalValueBranch(b, st, fuel), c, base, fuel, n)
    decreases fuel, b, 2
  {
    hide EmitExpr, EmitStmts, EmitValueBranch, Good, Within, Sim, Keeps, Holds, Lands, StoreBranchValue, SlotFree, Stored, Ctx;
    hide PushScope, PopScope, Push, Pop;
    var s1, v := BlockForm(s, b, slot);
    BlockSound(code, s, b, slot, s1, v);
    var p, r := PushScope(s), StoreBranchValue(v, slot).value;
    SimPush(s, st, f, base);
    var st1 := Push(st, map[]);
    n, c := SimInner(code, s, b, slot, s1, v, st1, fuel, f, base);
    var r1 := EvalStmts(b.stmts, st1, fuel);
    var res := if r1.out != Done then r1 else EvalExpr(b.e, r1.st, fuel);
    assert EvalValueBranch(b, st, fuel) == Pop(res);
    PopOut(res);
    KeepsRefl(s0, f);
    if res.out.Yield? {
      var n1, f1 := n, c.f;
      KeepsPush(s, f, f1);
      KeepsWeaker(s0, s, f, f1);
      SlotFreeBlock(s0, s, v.s, slot);
      var f2 := SimStoreBranch(code, s0, v, slot, res.out.v, res.st, f1, base);
      SimPop(s, r.0, res.st, f2, base);
      RunsTrans(code, Running(f), n1, Running(f1), 1, Running(f2));
      KeepsSelf(s0, f, f1, f2);
      n, c := n1 + 1, Running(f2);
      ArriveSlot(code, s0, PopScope(r.0), r.1, f, res.out.v, Pop(res).st, f2, base, fuel, n);
    } else {
      LandsEarly(code, p, v.s, r.0, f, res, c, base, fuel, n, |s.scopes|);
      LandsPop(code, s, r.0, f, res, c, base, fuel, n);
      Chain(code, s0, s, PopScope(r.0), f, 0, f, Pop(res), c, base, fuel, n, |s.scopes|);
    }
  }

  lemma PopOut(r: Res)
    ensures Pop(r).out == r.out
    ensures |r.st.env| > 0 ==> Pop(r).st == r.st.(env := r.st.env[..|r.st.env| - 1])
  {
  }

  lemma SlotFreeBlock(s0: Em, s: Em, s': Em, slot: Option<Local>)
    requires SlotFree(s0, s, slot) && Good(PushScope(s), s') && Same(s0, s)
    ensures SlotFree(s0, s', slot) && s0.tmp <= s'.tmp
  {
    TmpGrows(s0, s);
    TmpGrows(PushScope(s), s');
    if slot.Some? && InScope(s'.scopes, slot.value.slot) {
      ScopeOfGrown(PushScope(s), s', slot.value.slot);
      var k: nat, x :| IsLocal(PushScope(s).scopes, k, x) && SlotOf(PushScope(s).scopes, k, x) == slot.value.slot;
      assert IsLocal(s.scopes, k, x);
    }
  }

  /** The statements and the value of a value block, in its scope. */
  lemma {:induction false} SimInner(code: Code, s: Em, b: ValueBranch, slot: Option<Local>, s1: Em, v: Emitted,
                                    st: State, fuel: nat, f: Frame, base: nat)
    returns (n: nat, c: Config)
    requires Good(s, s) && Ctx(code, s) && BlockSteps(s, b, slot, s1, v) && Sim(PushScope(s), st, f, base)
    requires Within(EmitValueBranch(s, b, slot).value.0, code)
    ensures Runs(code, Running(f), n, c)
    ensures var r1 := EvalStmts(b.stmts, st, fuel);
            var res := if r1.out != Done then r1 else EvalExpr(b.e, r1.st, fuel);
            && res.out != Done && Lands(code, PushScope(s), v.s, f, res, c, base, fuel, n, |s.scopes|)
            && (res.out.Yield? ==> c.Running? && Sim(v.s, res.st, c.f, base) && Keeps(PushScope(s), f, c.f)
                                   && Holds(v.s, c.f, v.v, res.out.v, v.ty))
    decreases fuel, b, 1
  {
    hide EmitExpr, EmitStmts, EmitValueBranch, Good, Within, Sim, Keeps, Holds, Lands, StoreBranchValue, Ctx;
    BlockSound(code, s, b, slot, s1, v);
    var p := PushScope(s);
    n, c := SimStmts(code, p, b.stmts, st, fuel, f, base);
    var r1 := EvalStmts(b.stmts, st, fuel);
    hide PushScope;
    if r1.out == Done {
      Through(code, p, s1, f, r1, c, base, fuel, n, |s.scopes|);
      var n1, f1 := n, c.f;
      var n2;
      n2, c := SimExpr(code, s1, b.e, r1.st, fuel, f1, base);
      var res := EvalExpr(b.e, r1.st, fuel);
      LandsNarrow(code, s1, v.s, f1, res, c, base, fuel, n2);
      ChainStmts(code, p, s1, v.s, f, n1, f1, res, c, base, fuel, n2);
      n := n1 + n2;
      if res.out.Yield? {
        YieldThrough(code, s1, v, f1, res, c, base, fuel, n2);
        Through(code, p, v.s, f, res, c, base, fuel, n, |s.scopes|);
      }
    } else {
      LandsEarly(code, p, s1, v.s, f, r1, c, base, fuel, n, |s.scopes|);
    }
  }

  // ---------------------------------------------------------------- conditions and branches

  /** Where the next condition of an `if` starts, after the branch that ends in state `b`. */
  function NextArm(c: Emitted, b: Em, end: Label): Em {
    Begin(EndBranch(b, end), c.s.lbl + 2)
  }

  ghost predicate ForkSound(s: Em, c: Emitted, b: Em, end: Label) {
    && Good(s, s) && Same(s, c.s) && Good(c.s, c.s) && Same(s, OpenThen(c)) && Good(OpenThen(c), OpenThen(c))
    && Same(OpenThen(c), b) && Same(s, b) && Same(s, NextArm(c, b, end)) && Good(NextArm(c, b, end), NextArm(c, b, end))
  }

  /** How a condition, its branch and what follows hang together in the finished code. */
  ghost predicate ForkShape(code: Code, c: Emitted, b: Em, end: Label) {
    && UniqueLabels(code) && Within(c.s, code)
    && Within(Terminate(NewLabels(c.s, 2), CondBr(c.v, c.s.lbl + 1, c.s.lbl + 2)), code)
    && EndsWith(OpenThen(c), c.s.lbl + 1) && Within(OpenThen(c), code) && Within(b, code) && Within(EndBranch(b, end), code)
    && EndsWith(NextArm(c, b, end), c.s.lbl + 2) && Within(NextArm(c, b, end), code)
  }

  lemma OpenSound(s: Em, c: Emitted)
    requires Good(s, s) && Same(s, c.s)
    ensures Same(s, OpenThen(c)) && Good(OpenThen(c), OpenThen(c)) && Pending(s, OpenThen(c), c.s.lbl + 2)
  {
    hide Good, Pending, Begin, Terminate;
    BranchGood(s, c.s, CondBr(c.v, c.s.lbl + 1, c.s.lbl + 2));
    Refl(s, OpenThen(c));
  }

  lemma ForkStays(s: Em, c: Emitted, b: Em, end: Label)
    requires Good(s, s) && Same(s, c.s) && Same(OpenThen(c), b)
    ensures ForkSound(s, c, b, end) && c.s.tmp <= b.tmp <= NextArm(c, b, end).tmp
  {
    hide Good, Pending, Begin, EndBranch, OpenThen;
    OpenSound(s, c);
    Refl(s, c.s);
    SameTrans(s, OpenThen(c), b);
    NextArmGood(s, OpenThen(c), b, end, c.s.lbl + 2);
    Refl(s, NextArm(c, b, end));
    OpenTmp(c);
    TmpGrows(OpenThen(c), b);
  }

  lemma OpenTmp(c: Emitted)
    ensures OpenThen(c).tmp == c.s.tmp && OpenThen(c).loops == c.s.loops && OpenThen(c).arenas == c.s.arenas
    ensures OpenThen(c).ret == c.s.ret
  {
    hide Begin, Terminate;
    TermBody(NewLabels(c.s, 2), CondBr(c.v, c.s.lbl + 1, c.s.lbl + 2));
    BeginEnds(Terminate(NewLabels(c.s, 2), CondBr(c.v, c.s.lbl + 1, c.s.lbl + 2)), c.s.lbl + 1);
  }

  lemma ForkPlaces(code: Code, c: Emitted, b: Em, end: Label)
    requires UniqueLabels(code) && Same(OpenThen(c), b) && Within(NextArm(c, b, end), code)
    ensures ForkShape(code, c, b, end)
  {
    hide Good, Begin, Terminate;
    var br := Terminate(NewLabels(c.s, 2), CondBr(c.v, c.s.lbl + 1, c.s.lbl + 2));
    TermBody(NewLabels(c.s, 2), CondBr(c.v, c.s.lbl + 1, c.s.lbl + 2));
    BeginEnds(br, c.s.lbl + 1);
    TermBody(b, Br(end));
    BeginEnds(EndBranch(b, end), c.s.lbl + 2);
    PrefixTrans(EndBranch(b, end).body, NextArm(c, b, end).body, code);
    PrefixTrans(b.body, EndBranch(b, end).body, code);
    WithinBack(OpenThen(c), b, code);
    PrefixTrans(br.body, OpenThen(c).body, code);
    PrefixTrans(c.s.body, br.body, code);
  }

  /** The condition decides between the branch and what follows it. */
  lemma SimFork(code: Code, s: Em, c: Emitted, b: Em, end: Label, v: bool, st: State, f: Frame, base: nat)
    returns (f': Frame)
    requires ForkSound(s, c, b, end) && ForkShape(code, c, b, end) && Sim(c.s, st, f, base)
    requires Readable(f, c.v) && Read(f, c.v) == BoolV(v)
    ensures Runs(code, Running(f), 1, Running(f')) && f'.regs == f.regs && f'.slots == f.slots
    ensures Sim(if v then OpenThen(c) else NextArm(c, b, end), st, f', base)
  {
    hide Good, Within, Begin, Terminate, Keeps, Sim, OpenThen, NextArm;
    var next := NextArm(c, b, end);
    SameFields(s, c.s);
    SameFields(s, OpenThen(c));
    SameFields(s, next);
    SimNewLabels(c.s, 2, st, f, base);
    SimCondBr(code, NewLabels(c.s, 2), c.v, v, c.s.lbl + 1, c.s.lbl + 2, if v then OpenThen(c) else next, st, f, base);
    RunsStep(code, Running(f));
    f' := f.(pc := |(if v then OpenThen(c) else next).body|);
  }

  /** A branch that reached its end goes to where the branches meet. */
  lemma SimLeaveBranch(code: Code, b: Em, end: Label, e: Em, st: State, f: Frame, base: nat) returns (f': Frame)
    requires Sim(b, st, f, base) && UniqueLabels(code) && Within(EndBranch(b, end), code) && Within(e, code)
    requires EndsWith(e, end) && e.scopes == b.scopes && e.arenas == b.arenas
    ensures Runs(code, Running(f), 1, Running(f')) && f'.regs == f.regs && f'.slots == f.slots && Sim(e, st, f', base)
    ensures f'.log == f.log
  {
    hide Within, Terminate, MatchEnv, Keeps;
    SimBr(code, b, end, e, st, f, base);
    RunsStep(code, Running(f));
    f' := f.(pc := |e.body|);
  }

  /** A branch that reached its end falls through to where the branches meet. */
  lemma SimFallThrough(code: Code, b: Em, end: Label, st: State, f: Frame, base: nat) returns (f': Frame)
    requires Sim(b, st, f, base) && UniqueLabels(code) && Within(Begin(b, end), code)
    ensures Runs(code, Running(f), 1, Running(f')) && f'.regs == f.regs && f'.slots == f.slots
    ensures Sim(Begin(b, end), st, f', base)
  {
    hide Within, Begin, Keeps, Sim;
    SimBegin(code, b, end, st, f, base);
    RunsStep(code, Running(f));
    f' := f.(pc := |Begin(b, end).body|);
  }

  // ---------------------------------------------------------------- the arms of a value-if

  ghost predicate ArmSteps(s: Em, arms: ValueArms, end: Label, slot: Option<Local>, c: Emitted, b: (Em, Local), r: (Em, Local)) {
    && arms.ValueArm? && EmitExpr(s, arms.cond) == Ok(c) && c.ty == I1
    && EmitValueBranch(OpenThen(c), arms.branch, slot) == Ok(b)
    && EmitValueArms(NextArm(c, b.0, end), arms.others, end, Some(b.1)) == Ok(r)
    && EmitValueArms(s, arms, end, slot) == Ok(r)
  }

  lemma ArmForm(s: Em, arms: ValueArms, end: Label, slot: Option<Local>) returns (c: Emitted, b: (Em, Local), r: (Em, Local))
    requires arms.ValueArm? && EmitValueArms(s, arms, end, slot).Ok?
    ensures ArmSteps(s, arms, end, slot, c, b, r)
  {
    hide EmitExpr, EmitValueBranch, Begin, EndBranch, OpenThen;
    c := EmitExpr(s, arms.cond).value;
    b := EmitValueBranch(OpenThen(c), arms.branch, slot).value;
    r := EmitValueArms(s, arms, end, slot).value;
  }

  /** What the emitter's steps on an arm give for the finished code. */
  lemma ArmSound(code: Code, s0: Em, s: Em, arms: ValueArms, end: Label, slot: Option<Local>, c: Emitted, b: (Em, Local),
                 r: (Em, Local))
    requires ArmSteps(s, arms, end, slot, c, b, r) && Same(s0, s) && Good(s, s) && Ctx(code, s) && SlotFree(s0, s, slot)
    requires Within(Begin(r.0, end), code)
    ensures ForkSound(s, c, b.0, end) && ForkShape(code, c, b.0, end) && Same(s0, b.0)
    ensures Same(s0, OpenThen(c)) && Same(s0, NextArm(c, b.0, end))
    ensures Ctx(code, OpenThen(c)) && Ctx(code, NextArm(c, b.0, end)) && UniqueLabels(code)
    ensures SlotFree(s0, OpenThen(c), slot) && SlotFree(s0, NextArm(c, b.0, end), Some(b.1)) && r.1 == b.1
  {
    hide EmitExpr, EmitValueBranch, EmitValueArms, Good, Begin, OpenThen, NextArm, SlotFree, ForkSound, ForkShape, Ctx, Pending;
    var open, next := OpenThen(c), NextArm(c, b.0, end);
    ExprGood(s, arms.cond);
    OpenSound(s, c);
    ValueBranchGood(open, arms.branch, slot);
    ForkStays(s, c, b.0, end);
    ForkSame(s0, s, c, b.0, end);
    ValueArmsGood(next, arms.others, end, Some(b.1));
    BeginEnds(r.0, end);
    PrefixTrans(r.0.body, Begin(r.0, end).body, code);
    WithinBack(next, r.0, code);
    CtxLabels(code, s);
    ForkPlaces(code, c, b.0, end);
    CtxGood(code, s, open);
    CtxGood(code, s, next);
    SlotFreeGrows(s0, s, open, slot);
    ArmSlot(s0, s, open, b, next, slot);
  }

  lemma ForkSame(s0: Em, s: Em, c: Emitted, b: Em, end: Label)
    requires Same(s0, s) && ForkSound(s, c, b, end)
    ensures Same(s0, b) && Same(s0, OpenThen(c)) && Same(s0, NextArm(c, b, end)) && Good(NextArm(c, b, end), NextArm(c, b, end))
    ensures Same(s, OpenThen(c)) && Same(s, NextArm(c, b, end))
  {
    hide Good, OpenThen, NextArm;
    SameTrans(s0, s, b);
    SameTrans(s0, s, OpenThen(c));
    SameTrans(s0, s, NextArm(c, b, end));
  }

  lemma ArmSlot(s0: Em, s: Em, open: Em, b: (Em, Local), next: Em, slot: Option<Local>)
    requires Good(s, s) && Same(s0, s) && SlotFree(s0, s, slot) && Same(s, open) && ResultSlot(open, slot, b)
    requires Same(s, next) && b.0.tmp <= next.tmp
    ensures SlotFree(s0, next, Some(b.1))
  {
    hide Good, InScope;
    TmpGrows(s, open);
    TmpGrows(s0, s);
    TmpGrows(s, next);
    if slot.None? {
      FreeSlot(s, b.1.slot);
    }
  }

  /** The arms of a value-`if`, up to the block where they meet. */
  lemma {:induction false} SimValueArms(code: Code, s0: Em, s: Em, arms: ValueArms, end: Label, slot: Option<Local>,
                                        st: State, fuel: nat, f: Frame, base: nat)
    returns (n: nat, c: Config)
    requires Same(s0, s) && Good(s, s) && EmitValueArms(s, arms, end, slot).Ok? && Sim(s, st, f, base) && Ctx(code, s)
    requires Within(Begin(EmitValueArms(s, arms, end, slot).value.0, end), code) && SlotFree(s0, s, slot)
    ensures Runs(code, Running(f), n, c)
    ensures var r := EmitValueArms(s, arms, end, slot).value;
            LandsSlot(code, s0, Begin(r.0, end), r.1, f, EvalValueArms(arms, st, fuel), c, base, fuel, n)
    decreases fuel, arms, 3
  {
    if arms.ValueElse? {
      n, c := SimValueElse(code, s0, s, arms, end, slot, st, fuel, f, base);
    } else {
      n, c := SimValueArm(code, s0, s, arms, end, slot, st, fuel, f, base);
    }
  }

  lemma {:induction false} SimValueArm(code: Code, s0: Em, s: Em, arms: ValueArms, end: Label, slot: Option<Local>,
                                       st: State, fuel: nat, f: Frame, base: nat)
    returns (n: nat, c: Config)
    requires arms.ValueArm?
    requires Same(s0, s) && Good(s, s) && EmitValueArms(s, arms, end, slot).Ok? && Sim(s, st, f, base) && Ctx(code, s)
    requires Within(Begin(EmitValueArms(s, arms, end, slot).value.0, end), code) && SlotFree(s0, s, slot)
    ensures Runs(code, Running(f), n, c)
    ensures var r := EmitValueArms(s, arms, end, slot).value;
            LandsSlot(code, s0, Begin(r.0, end), r.1, f, EvalValueArms(arms, st, fuel), c, base, fuel, n)
    decreases fuel, arms, 2
  {
    hide EmitExpr, EmitValueBranch, EmitValueArms, Good, Begin, OpenThen, SlotFree, Ctx, Sim, Within;
    hide Keeps, Holds, Lands, LandsSlot, ArmSteps;
    var x, b, r := ArmForm(s, arms, end, slot);
    ArmTypes(s, arms, end, slot, x, b, r);
    ArmSound(code, s0, s, arms, end, slot, x, b, r);
    hide NextArm, ForkSound, ForkShape;
    ForkWithin(code, s, x, b.0, end);
    n, c := SimExpr(code, s, arms.cond, st, fuel, f, base);
    var e, res := Begin(r.0, end), EvalExpr(arms.cond, st, fuel);
    KeepsRefl(s0, f);
    ChainExpr(code, s0, s, x, f, 0, f, res, c, base, fuel, n);
    if res.out.Yield? {
      YieldThrough(code, s0, x, f, res, c, base, fuel, n);
      BoolHeld(x.s, c.f, x.v, res.out.v);
      var n1, f1 := n, c.f;
      var f2 := SimFork(code, s, x, b.0, end, res.out.v.b, res.st, f1, base);
      RunsTrans(code, Running(f), n1, Running(f1), 1, Running(f2));
      KeepsSame(s0, f, f1, f2);
      n, c := SimArmRest(code, s0, s, arms, end, slot, x, b, r, res.out.v.b, res.st, fuel, f, n1 + 1, f2, base);
    } else {
      LandsEarly(code, s0, x.s, e, f, res, c, base, fuel, n, |s0.scopes|);
      SlotEarly(code, s0, e, r.1, f, res, c, base, fuel, n);
    }
  }

  lemma SlotEarly(code: Code, s: Em, s': Em, l: Local, f: Frame, res: Res, c: Config, base: nat, fuel: nat, n: nat)
    requires Lands(code, s, s', f, res, c, base, fuel, n, |s.scopes|) && !Normal(res.out)
    ensures LandsSlot(code, s, s', l, f, res, c, base, fuel, n)
  {
    hide Lands, Stored;
  }

  lemma ArmTypes(s: Em, arms: ValueArms, end: Label, slot: Option<Local>, c: Emitted, b: (Em, Local), r: (Em, Local))
    requires ArmSteps(s, arms, end, slot, c, b, r)
    ensures arms.ValueArm? && EmitExpr(s, arms.cond) == Ok(c) && c.ty == I1 && EmitValueArms(s, arms, end, slot) == Ok(r)
    ensures EmitValueBranch(OpenThen(c), arms.branch, slot) == Ok(b)
    ensures EmitValueArms(NextArm(c, b.0, end), arms.others, end, Some(b.1)) == Ok(r)
  {
    hide EmitExpr, EmitValueBranch, EmitValueArms, OpenThen, NextArm;
  }

  lemma ForkWithin(code: Code, s: Em, c: Emitted, b: Em, end: Label)
    requires ForkSound(s, c, b, end) && ForkShape(code, c, b, end)
    ensures Same(s, c.s) && Within(c.s, code) && Within(b, code) && Within(EndBranch(b, end), code) && UniqueLabels(code)
    ensures Good(OpenThen(c), OpenThen(c)) && Good(NextArm(c, b, end), NextArm(c, b, end))
  {
    hide Good, Within, OpenThen, NextArm, EndBranch;
  }

  lemma {:induction false} SimValueElse(code: Code, s0: Em, s: Em, arms: ValueArms, end: Label, slot: Option<Local>,
                                        st: State, fuel: nat, f: Frame, base: nat)
    returns (n: nat, c: Config)
    requires arms.ValueElse?
    requires Same(s0, s) && Good(s, s) && EmitValueArms(s, arms, end, slot).Ok? && Sim(s, st, f, base) && Ctx(code, s)
    requires Within(Begin(EmitValueArms(s, arms, end, slot).value.0, end), code) && SlotFree(s0, s, slot)
    ensures Runs(code, Running(f), n, c)
    ensures var r := EmitValueArms(s, arms, end, slot).value;
            LandsSlot(code, s0, Begin(r.0, end), r.1, f, EvalValueArms(arms, st, fuel), c, base, fuel, n)
    decreases fuel, arms, 2
  {
    hide EmitValueBranch, Good, Begin, SlotFree, Ctx, Sim, Within, Keeps, Lands, LandsSlot, Stored;
    var r := EmitValueBranch(s, arms.last, slot).value;
    var e := Begin(r.0, end);
    BeginEnds(r.0, end);
    WithinPrefix(r.0, e, code);
    CtxLabels(code, s);
    n, c := SimValueBranch(code, s0, s, arms.last, slot, st, fuel, f, base);
    var res := EvalValueBranch(arms.last, st, fuel);
    if res.out.Yield? {
      ThroughSlot(code, s0, r.0, r.1, f, res, c, base, fuel, n);
      var f1 := c.f;
      var f2 := SimFallThrough(code, r.0, end, res.st, f1, base);
      RunsTrans(code, Running(f), n, Running(f1), 1, Running(f2));
      KeepsSame(s0, f, f1, f2);
      StoredSame(f1, f2, r.1, res.out.v);
      n, c := n + 1, Running(f2);
      ArriveSlot(code, s0, e, r.1, f, res.out.v, res.st, f2, base, fuel, n);
    } else {
      EarlySlot(code, s0, r.0, e, r.1, r.1, f, res, c, base, fuel, n);
    }
  }

  lemma StoredSame(f: Frame, f': Frame, l: Local, v: Value)
    requires Stored(f, l, v) && f'.slots == f.slots
    ensures Stored(f', l, v)
  {
  }

  lemma WithinPrefix(s: Em, s': Em, code: Code)
    requires s.body <= s'.body && Within(s', code)
    ensures Within(s, code)
  {
    PrefixTrans(s.body, s'.body, code);
  }

  /** The branch that the condition chose, or the arms after it. */
  lemma {:induction false} SimArmRest(code: Code, s0: Em, s: Em, arms: ValueArms, end: Label, slot: Option<Local>,
                                      x: Emitted, b: (Em, Local), r: (Em, Local), v: bool,
                                      st: State, fuel: nat, f: Frame, n: nat, f1: Frame, base: nat)
    returns (n': nat, c: Config)
    requires ArmSteps(s, arms, end, slot, x, b, r) && Same(s0, s) && Good(s, s) && Ctx(code, s) && SlotFree(s0, s, slot)
    requires Within(Begin(r.0, end), code) && Runs(code, Running(f), n, Running(f1)) && Keeps(s0, f, f1)
    requires Sim(if v then OpenThen(x) else NextArm(x, b.0, end), st, f1, base)
    ensures Runs(code, Running(f), n', c)
    ensures LandsSlot(code, s0, Begin(r.0, end), r.1, f,
                      if v then EvalValueBranch(arms.branch, st, fuel) else EvalValueArms(arms.others, st, fuel), c, base, fuel, n')
    decreases fuel, arms, 1
  {
    hide EmitExpr, EmitValueBranch, EmitValueArms, Good, Begin, OpenThen, SlotFree, Ctx, Sim, Within, EndBranch;
    hide Keeps, Holds, Lands, LandsSlot, ArmSteps, NextArm, ForkSound, ForkShape, Stored;
    ArmTypes(s, arms, end, slot, x, b, r);
    ArmSound(code, s0, s, arms, end, slot, x, b, r);
    ForkWithin(code, s, x, b.0, end);
    var e := Begin(r.0, end);
    KeepsRefl(s0, f1);
    RunsZero(code, f1);
    var m;
    if v {
      m, c := SimValueBranch(code, s0, OpenThen(x), arms.branch, slot, st, fuel, f1, base);
      var res := EvalValueBranch(arms.branch, st, fuel);
      if res.out.Yield? {
        ThroughSlot(code, s0, b.0, b.1, f1, res, c, base, fuel, m);
        MeetContext(code, s0, s, arms, end, slot, x, b, r);
        var f2 := c.f;
        var f3 := SimLeaveBranch(code, b.0, end, e, res.st, f2, base);
        RunsTrans(code, Running(f1), m, Running(f2), 1, Running(f3));
        KeepsSame(s0, f1, f2, f3);
        StoredSame(f2, f3, b.1, res.out.v);
        m, c := m + 1, Running(f3);
        ArriveSlot(code, s0, e, r.1, f1, res.out.v, res.st, f3, base, fuel, m);
      } else {
        EarlySlot(code, s0, b.0, e, b.1, r.1, f1, res, c, base, fuel, m);
      }
    } else {
      m, c := SimValueArms(code, s0, NextArm(x, b.0, end), arms.others, end, Some(b.1), st, fuel, f1, base);
    }
    PrependSlot(code, s0, e, r.1, f, n, f1,
                if v then EvalValueBranch(arms.branch, st, fuel) else EvalValueArms(arms.others, st, fuel), c, base, fuel, m);
    n' := n + m;
  }

  /** Steps before a piece that keep what the piece keeps. */
  lemma Prepend(code: Code, s: Em, s': Em, f: Frame, n1: nat, f1: Frame, res: Res, c: Config, base: nat,
                fuel: nat, n2: nat, k: nat)
    requires Keeps(s, f, f1) && Runs(code, Running(f), n1, Running(f1)) && Runs(code, Running(f1), n2, c)
    requires Lands(code, s, s', f1, res, c, base, fuel, n2, k)
    ensures Runs(code, Running(f), n1 + n2, c) && Lands(code, s, s', f, res, c, base, fuel, n1 + n2, k)
  {
    hide AtLoop, Keeps, Sim, CloseLog;
    RunsTrans(code, Running(f), n1, Running(f1), n2, c);
    if c.Running? && (Normal(res.out) || res.out == Broke || res.out == Continued) {
      KeepsSelf(s, f, f1, c.f);
    }
  }

  lemma PrependSlot(code: Code, s: Em, s': Em, l: Local, f: Frame, n1: nat, f1: Frame, res: Res, c: Config,
                    base: nat, fuel: nat, n2: nat)
    requires Keeps(s, f, f1) && Runs(code, Running(f), n1, Running(f1)) && Runs(code, Running(f1), n2, c)
    requires LandsSlot(code, s, s', l, f1, res, c, base, fuel, n2)
    ensures Runs(code, Running(f), n1 + n2, c) && LandsSlot(code, s, s', l, f, res, c, base, fuel, n1 + n2)
  {
    hide Lands, Keeps, Stored;
    Prepend(code, s, s', f, n1, f1, res, c, base, fuel, n2, |s.scopes|);
  }

  lemma RunsZero(code: Code, f: Frame)
    ensures Runs(code, Running(f), 0, Running(f))
  {
  }

  /** The branches of a value-`if` meet in the context they started from. */
  lemma MeetContext(code: Code, s0: Em, s: Em, arms: ValueArms, end: Label, slot: Option<Local>, c: Emitted, b: (Em, Local),
                    r: (Em, Local))
    requires ArmSteps(s, arms, end, slot, c, b, r) && ForkSound(s, c, b.0, end)
    ensures EndsWith(Begin(r.0, end), end) && Begin(r.0, end).scopes == b.0.scopes && Begin(r.0, end).arenas == b.0.arenas
  {
    hide EmitExpr, EmitValueBranch, EmitValueArms, Good, Begin, OpenThen, NextArm;
    ValueArmsGood(s, arms, end, slot);
    SameFields(s, r.0);
    SameFields(s, b.0);
    BeginEnds(r.0, end);
  }

  lemma {:induction false} SimIfExpr(code: Code, s: Em, e: Expr, st: State, fuel: nat, f: Frame, base: nat)
    returns (n: nat, c: Config)
    requires e.IfValue?
    requires Good(s, s) && EmitExpr(s, e).Ok? && Sim(s, st, f, base) && Ctx(code, s)
    requires Within(EmitExpr(s, e).value.s, code)
    ensures Runs(code, Running(f), n, c)
    ensures LandsExpr(code, s, EmitExpr(s, e).value, f, EvalExpr(e, st, fuel), c, base, fuel, n)
    decreases fuel, e, 1
  {
    hide EmitValueArms, Good, Begin, SlotFree, Ctx, Sim, Within, Keeps, Lands, LandsSlot, Stored, Pending, LoadFrom;
    var end, s1 := s.lbl + 1, NewLabels(s, 1);
    var a := EmitValueArms(s1, e.arms, end, None).value;
    var joined := Begin(a.0, end);
    assert EmitExpr(s, e).value == LoadFrom(joined, a.1.slot, a.1.ty);
    IfSound(code, s, e.arms);
    SimNewLabels(s, 1, st, f, base);
    SlotFreeNone(s, s1);
    n, c := SimValueArms(code, s, s1, e.arms, end, None, st, fuel, f, base);
    var res := EvalValueArms(e.arms, st, fuel);
    if res.out.Yield? {
      ThroughSlot(code, s, joined, a.1, f, res, c, base, fuel, n);
      StoredIn(c.f, a.1, res.out.v);
      n, c := SimResult(code, s, joined, a.1.slot, a.1.ty, f, n, c.f, base, res.out.v, res.st, fuel);
    } else {
      SlotLands(code, s, joined, a.1, f, res, c, base, fuel, n);
      LandsEarly(code, s, joined, EmitExpr(s, e).value.s, f, res, c, base, fuel, n, |s.scopes|);
    }
  }

  lemma SlotFreeNone(s0: Em, s: Em)
    ensures SlotFree(s0, s, None)
  {
  }

  lemma StoredIn(f: Frame, l: Local, v: Value)
    requires Stored(f, l, v)
    ensures l.slot in f.slots && f.slots[l.slot] == v && HasType(v, l.ty)
  {
  }

  lemma SlotLands(code: Code, s: Em, s': Em, l: Local, f: Frame, res: Res, c: Config, base: nat, fuel: nat, n: nat)
    requires LandsSlot(code, s, s', l, f, res, c, base, fuel, n)
    ensures Lands(code, s, s', f, res, c, base, fuel, n, |s.scopes|) && res.out != Done
  {
    hide Lands, Stored;
  }

  lemma IfSound(code: Code, s: Em, arms: ValueArms)
    requires Good(s, s) && Ctx(code, s) && EmitValueArms(NewLabels(s, 1), arms, s.lbl + 1, None).Ok?
    requires var a := EmitValueArms(NewLabels(s, 1), arms, s.lbl + 1, None).value;
             Within(LoadFrom(Begin(a.0, s.lbl + 1), a.1.slot, a.1.ty).s, code)
    ensures var a := EmitValueArms(NewLabels(s, 1), arms, s.lbl + 1, None).value;
            Within(Begin(a.0, s.lbl + 1), code) && Same(s, Begin(a.0, s.lbl + 1))
    ensures Same(s, NewLabels(s, 1)) && Good(NewLabels(s, 1), NewLabels(s, 1)) && Ctx(code, NewLabels(s, 1))
  {
    hide EmitValueArms, Good, Begin, Ctx, Pending;
    var end, s1 := s.lbl + 1, NewLabels(s, 1);
    var a := EmitValueArms(s1, arms, end, None).value;
    LabelsGood(s, s, 1);
    Refl(s, s1);
    ValueArmsGood(s1, arms, end, None);
    GoodTrans(s, s1, a.0);
    PendingGrows(s, s1, a.0, end);
    BeginGood(s, a.0, end);
    CtxGood(code, s, s1);
    InstrBody(Fresh(Begin(a.0, end), 1), Load(Begin(a.0, end).tmp + 1, a.1.slot));
    hide Instr;
    WithinPrefix(Begin(a.0, end), LoadFrom(Begin(a.0, end), a.1.slot, a.1.ty).s, code);
  }

  // ---------------------------------------------------------------- statements

  lemma {:induction false} SimStmts(code: Code, s: Em, stmts: seq<Stmt>, st: State, fuel: nat, f: Frame, base: nat)
    returns (n: nat, c: Config)
    requires Good(s, s) && EmitStmts(s, stmts).Ok? && Sim(s, st, f, base) && Ctx(code, s)
    requires Within(EmitStmts(s, stmts).value, code)
    ensures Runs(code, Running(f), n, c)
    ensures |s.scopes| > 0 && Lands(code, s, EmitStmts(s, stmts).value, f, EvalStmts(stmts, st, fuel), c, base, fuel, n, |s.scopes| - 1)
    decreases fuel, stmts, 1
  {
    hide Good, Within, Sim, Keeps, Lands, Ctx, EmitStmt, EvalStmt;
    GoodScopes(s, s);
    if stmts == [] {
      n, c := 0, Running(f);
      KeepsRefl(s, f);
      Arrive(code, s, s, f, st, f, base, fuel, 0, |s.scopes| - 1);
    } else {
      var s1, s' := EmitStmt(s, stmts[0]).value, EmitStmts(s, stmts).value;
      StmtGood(s, stmts[0]);
      Refl(s, s1);
      StmtsGood(s1, stmts[1..]);
      WithinBack(s1, s', code);
      n, c := SimStmt(code, s, stmts[0], st, fuel, f, base);
      var res := EvalStmt(stmts[0], st, fuel);
      LandsNarrow(code, s, s1, f, res, c, base, fuel, n);
      if res.out == Done {
        Through(code, s, s1, f, res, c, base, fuel, n, |s.scopes| - 1);
        var n1, f1 := n, c.f;
        CtxGood(code, s, s1);
        SameFields(s, s1);
        var n2;
        n2, c := SimStmts(code, s1, stmts[1..], res.st, fuel, f1, base);
        ChainStmts(code, s, s1, s', f, n1, f1, EvalStmts(stmts[1..], res.st, fuel), c, base, fuel, n2);
        n := n1 + n2;
      } else {
        LandsEarly(code, s, s1, s', f, res, c, base, fuel, n, |s.scopes| - 1);
      }
    }
  }

  lemma Arrive(code: Code, s: Em, s': Em, f: Frame, st: State, f': Frame, base: nat, fuel: nat, n: nat, k: nat)
    requires Sim(s', st, f', base) && Keeps(s, f, f')
    ensures Lands(code, s, s', f, Res(Done, st), Running(f'), base, fuel, n, k)
  {
    hide Sim, Keeps;
  }

  lemma {:induction false} SimBlock(code: Code, s: Em, stmts: seq<Stmt>, st: State, fuel: nat, f: Frame, base: nat)
    returns (n: nat, c: Config)
    requires Good(s, s) && EmitBlock(s, stmts).Ok? && Sim(s, st, f, base) && Ctx(code, s)
    requires Within(EmitBlock(s, stmts).value, code)
    ensures Runs(code, Running(f), n, c)
    ensures Lands(code, s, EmitBlock(s, stmts).value, f, EvalBlock(stmts, st, fuel), c, base, fuel, n, |s.scopes|)
    decreases fuel, stmts, 2
  {
    hide Good, Within, Sim, Keeps, Lands, Ctx, EmitStmts, EvalStmts, Push, Pop, PopScope;
    var p := PushScope(s);
    var inner := EmitStmts(p, stmts).value;
    PushGood(s, s);
    StmtsGood(p, stmts);
    CtxPush(code, s);
    SimPush(s, st, f, base);
    PopBody(inner);
    WithinPrefix(inner, PopScope(inner), code);
    n, c := SimStmts(code, p, stmts, Push(st, map[]), fuel, f, base);
    LandsPop(code, s, inner, f, EvalStmts(stmts, Push(st, map[]), fuel), c, base, fuel, n);
  }

  lemma PopBody(s: Em)
    ensures PopScope(s).body == s.body && PopLoop(s).body == s.body
  {
  }

  lemma {:induction false} SimStmt(code: Code, s: Em, x: Stmt, st: State, fuel: nat, f: Frame, base: nat)
    returns (n: nat, c: Config)
    requires Good(s, s) && EmitStmt(s, x).Ok? && Sim(s, st, f, base) && Ctx(code, s)
    requires Within(EmitStmt(s, x).value, code)
    ensures Runs(code, Running(f), n, c)
    ensures Lands(code, s, EmitStmt(s, x).value, f, EvalStmt(x, st, fuel), c, base, fuel, n, |s.scopes|)
    decreases fuel, x, 3
  {
    hide Good, Within, Sim, Keeps, Lands, Ctx, EmitStmt, EvalStmt;
    match x {
      case Let(_, _) => n, c := SimLet(code, s, x, st, fuel, f, base);
      case Assign(_, _, _) => n, c := SimAssignStmt(code, s, x, st, fuel, f, base);
      case Eval(_) => n, c := SimEval(code, s, x, st, fuel, f, base);
      case Print(_) => n, c := SimPrintStmt(code, s, x, st, fuel, f, base);
      case Return(_) => n, c := SimReturn(code, s, x, st, fuel, f, base);
      case If(_) => n, c := SimIfStmt(code, s, x, st, fuel, f, base);
      case While(_, _) => n, c := SimWhile(code, s, x, st, fuel, f, base);
      case Loop(_) => n, c := SimLoop(code, s, x, st, fuel, f, base);
      case For(_, _, _, _, _) => n, c := SimForStmt(code, s, x, st, fuel, f, base);
      case Break => n, c := SimJump(code, s, x, st, fuel, f, base);
      case Continue => n, c := SimJump(code, s, x, st, fuel, f, base);
      case With(_, _) => n, c := SimWith(code, s, x, st, fuel, f, base);
    }
  }

  /** A value that a statement goes on to use, or the early end of the statement. */
  lemma EarlyStmt(code: Code, s: Em, v: Emitted, s': Em, f: Frame, res: Res, c: Config, base: nat, fuel: nat, n: nat)
    requires LandsExpr(code, s, v, f, res, c, base, fuel, n) && !res.out.Yield?
    ensures Lands(code, s, s', f, res, c, base, fuel, n, |s.scopes|)
  {
    hide Lands, Holds;
    LandsEarly(code, s, v.s, s', f, res, c, base, fuel, n, |s.scopes|);
  }

  lemma {:induction false} SimLet(code: Code, s: Em, x: Stmt, st: State, fuel: nat, f: Frame, base: nat)
    returns (n: nat, c: Config)
    requires x.Let?
    requires Good(s, s) && EmitStmt(s, x).Ok? && Sim(s, st, f, base) && Ctx(code, s)
    requires Within(EmitStmt(s, x).value, code)
    ensures Runs(code, Running(f), n, c)
    ensures Lands(code, s, EmitStmt(s, x).value, f, EvalStmt(x, st, fuel), c, base, fuel, n, |s.scopes|)
    decreases fuel, x, 2
  {
    hide Good, Within, Sim, Keeps, Lands, Ctx, EmitExpr, EvalExpr, StoreNew, Declare, Holds;
    var v := EmitExpr(s, x.value).value;
    var s' := StoreNew(v, x.name);
    ExprGood(s, x.value);
    Refl(s, v.s);
    StoreNewGood(v.s, v, x.name);
    WithinBack(v.s, s', code);
    n, c := SimExpr(code, s, x.value, st, fuel, f, base);
    var res := EvalExpr(x.value, st, fuel);
    if res.out.Yield? {
      YieldThrough(code, s, v, f, res, c, base, fuel, n);
      var n1, f1 := n, c.f;
      StoreNewForm(v, x.name);
      HeldValue(v.s, f1, v.v, res.out.v, v.ty);
      SimDeclare(code, v.s, x.name, v.v, v.ty, res.st, f1, base);
      RunsStep(code, Running(f1));
      c := Step(code, Running(f1));
      RunsTrans(code, Running(f), n1, Running(f1), 1, c);
      n := n1 + 1;
      KeepsTrans(s, v.s, f, f1, c.f);
      Arrive(code, s, s', f, res.st.(env := Declare(res.st.env, x.name, res.out.v)), c.f, base, fuel, n, |s.scopes|);
    } else {
      EarlyStmt(code, s, v, s', f, res, c, base, fuel, n);
    }
  }

  lemma StoreNewForm(v: Emitted, x: Name)
    ensures StoreNew(v, x) == Instr(DeclareLocal(v.s, x, v.ty), Store(v.v, v.s.tmp + 1))
  {
    hide Instr;
  }

  lemma HeldValue(s: Em, f: Frame, o: Operand, v: Value, ty: Ty)
    requires Holds(s, f, o, v, ty)
    ensures Readable(f, o) && Read(f, o) == v && HasType(v, ty)
  {
  }

  lemma {:induction false} SimEval(code: Code, s: Em, x: Stmt, st: State, fuel: nat, f: Frame, base: nat)
    returns (n: nat, c: Config)
    requires x.Eval?
    requires Good(s, s) && EmitStmt(s, x).Ok? && Sim(s, st, f, base) && Ctx(code, s)
    requires Within(EmitStmt(s, x).value, code)
    ensures Runs(code, Running(f), n, c)
    ensures Lands(code, s, EmitStmt(s, x).value, f, EvalStmt(x, st, fuel), c, base, fuel, n, |s.scopes|)
    decreases fuel, x, 2
  {
    hide Good, Within, Sim, Keeps, Lands, Ctx, EmitExpr, EvalExpr, Holds;
    var v := EmitExpr(s, x.e).value;
    n, c := SimExpr(code, s, x.e, st, fuel, f, base);
    var res := EvalExpr(x.e, st, fuel);
    if res.out.Yield? {
      YieldThrough(code, s, v, f, res, c, base, fuel, n);
      Arrive(code, s, v.s, f, res.st, c.f, base, fuel, n, |s.scopes|);
    } else {
      EarlyStmt(code, s, v, v.s, f, res, c, base, fuel, n);
    }
  }

  // ---------------------------------------------------------------- assignment

  lemma {:induction false} SimAssignStmt(code: Code, s: Em, x: Stmt, st: State, fuel: nat, f: Frame, base: nat)
    returns (n: nat, c: Config)
    requires x.Assign?
    requires Good(s, s) && EmitStmt(s, x).Ok? && Sim(s, st, f, base) && Ctx(code, s)
    requires Within(EmitStmt(s, x).value, code)
    ensures Runs(code, Running(f), n, c)
    ensures Lands(code, s, EmitStmt(s, x).value, f, EvalStmt(x, st, fuel), c, base, fuel, n, |s.scopes|)
    decreases fuel, x, 2
  {
    hide Good, Within, Sim, Keeps, Lands, Ctx, EmitExpr, EvalExpr, Holds, EmitAssign, EvalAssign, FindLocal;
    var v := EmitExpr(s, x.value).value;
    var l, s' := FindLocal(s.scopes, x.name).value, EmitStmt(s, x).value;
    ExprGood(s, x.value);
    Refl(s, v.s);
    AssignGood(v.s, v, l, x.aop);
    WithinBack(v.s, s', code);
    CtxLabels(code, s);
    n, c := SimExpr(code, s, x.value, st, fuel, f, base);
    var res := EvalExpr(x.value, st, fuel);
    if res.out.Yield? {
      YieldThrough(code, s, v, f, res, c, base, fuel, n);
      var n1, f1 := n, c.f;
      var n2;
      if x.aop.Plain? {
        n2, c := SimPlain(code, v, x.name, res.out.v, res.st, fuel, f1, base);
      } else {
        n2, c := SimCompound(code, v, x.name, x.aop.op, res.out.v, res.st, fuel, f1, base);
      }
      Chain(code, s, v.s, s', f, n1, f1, EvalAssign(x.name, x.aop, res), c, base, fuel, n2, |s.scopes|);
      n := n1 + n2;
    } else {
      assert EvalAssign(x.name, x.aop, res) == res by { AssignEarly(x.name, x.aop, res); }
      EarlyStmt(code, s, v, s', f, res, c, base, fuel, n);
    }
  }

  lemma AssignEarly(x: Name, aop: AssignOp, r: Res)
    requires !r.out.Yield?
    ensures EvalAssign(x, aop, r) == r
  {
  }

  lemma SimPlain(code: Code, v: Emitted, x: Name, a: Value, st: State, fuel: nat, f: Frame, base: nat)
    returns (n: nat, c: Config)
    requires Good(v.s, v.s) && Sim(v.s, st, f, base) && FindLocal(v.s.scopes, x).Some? && Holds(v.s, f, v.v, a, v.ty)
    requires EmitAssign(v, FindLocal(v.s.scopes, x).value, Plain).Ok?
    requires Within(EmitAssign(v, FindLocal(v.s.scopes, x).value, Plain).value, code)
    ensures Runs(code, Running(f), n, c)
    ensures Lands(code, v.s, EmitAssign(v, FindLocal(v.s.scopes, x).value, Plain).value, f,
                  EvalAssign(x, Plain, Res(Yield(a), st)), c, base, fuel, n, |v.s.scopes|)
  {
    hide Good, Within, Sim, Keeps, Lands, FindLocal, Update, Instr, Bound;
    SimAssign(code, v.s, x, v.v, st, f, base);
    RunsStep(code, Running(f));
    n, c := 1, Step(code, Running(f));
    Arrive(code, v.s, EmitAssign(v, FindLocal(v.s.scopes, x).value, Plain).value, f, st.(env := Update(st.env, x, a)), c.f,
           base, fuel, n, |v.s.scopes|);
  }

  /** A loaded variable. */
  lemma SimLoadVar(code: Code, s: Em, x: Name, st: State, f: Frame, base: nat) returns (f': Frame)
    requires Good(s, s) && Sim(s, st, f, base) && FindLocal(s.scopes, x).Some?
    requires var l := FindLocal(s.scopes, x).value; Within(LoadFrom(s, l.slot, l.ty).s, code)
    ensures Bound(st.env, x)
    ensures var l := FindLocal(s.scopes, x).value;
            var r := LoadFrom(s, l.slot, l.ty);
            && Runs(code, Running(f), 1, Running(f')) && Sim(r.s, st, f', base) && Keeps(s, f, f')
            && Holds(r.s, f', r.v, Lookup(st.env, x), l.ty)
  {
    var k := FoundAt(s.scopes, st.env, f.slots, x);
    hide Good, Within, Instr, Keeps;
    var l := s.scopes[k][x];
    SimLoad(code, s, l.slot, l.ty, st, f, base);
    RunsStep(code, Running(f));
    f' := SetReg(f, s.tmp + 1, f.slots[l.slot]);
  }

  lemma CompoundType(s: Em, op: BinOp, l: Operand, lty: Ty, r: Operand, rty: Ty)
    requires EmitBinop(s, op, l, lty, r, rty).Ok? && op !in {Eq, Ne, Lt, Le, Gt, Ge}
    ensures EmitBinop(s, op, l, lty, r, rty).value.ty == lty
  {
    hide Instr, EmitDivision;
    assert EmitDivision(Fresh(s, 1), op, l, r).ty == I64 by { DivisionType(Fresh(s, 1), op, l, r); }
  }

  lemma DivisionType(s: Em, op: BinOp, l: Operand, r: Operand)
    ensures EmitDivision(s, op, l, r).ty == I64
  {
    hide Instr, DivisionGuard;
  }

  ghost predicate CompoundSteps(v: Emitted, l: Local, op: BinOp, cur: Emitted, r: Emitted) {
    && op !in {Eq, Ne, Lt, Le, Gt, Ge} && cur == LoadFrom(v.s, l.slot, l.ty)
    && EmitBinop(cur.s, op, cur.v, l.ty, v.v, v.ty) == Ok(r)
    && EmitAssign(v, l, Compound(op)) == Ok(Instr(r.s, Store(r.v, l.slot)))
  }

  lemma CompoundForm(v: Emitted, l: Local, op: BinOp) returns (cur: Emitted, r: Emitted)
    requires EmitAssign(v, l, Compound(op)).Ok?
    ensures CompoundSteps(v, l, op, cur, r) && r.ty == l.ty && cur.ty == l.ty
  {
    hide Instr, EmitBinop;
    cur := LoadFrom(v.s, l.slot, l.ty);
    r := EmitBinop(cur.s, op, cur.v, cur.ty, v.v, v.ty).value;
    CompoundType(cur.s, op, cur.v, cur.ty, v.v, v.ty);
  }

  lemma CompoundSound(code: Code, v: Emitted, l: Local, op: BinOp, cur: Emitted, r: Emitted)
    requires Good(v.s, v.s) && CompoundSteps(v, l, op, cur, r) && Within(EmitAssign(v, l, Compound(op)).value, code)
    ensures Good(cur.s, cur.s) && Same(v.s, cur.s) && Same(cur.s, r.s) && Good(r.s, r.s) && Same(v.s, r.s)
    ensures Within(cur.s, code) && Within(r.s, code)
  {
    hide Good, Within, Instr, EmitBinop, LoadFrom, EmitAssign;
    LoadGood(v.s, v.s, l.slot, l.ty);
    Refl(v.s, cur.s);
    BinopGood(cur.s, cur.s, op, cur.v, l.ty, v.v, v.ty);
    Refl(cur.s, r.s);
    SameTrans(v.s, cur.s, r.s);
    InstrGood(r.s, r.s, Store(r.v, l.slot));
    WithinBack(r.s, Instr(r.s, Store(r.v, l.slot)), code);
    WithinBack(cur.s, r.s, code);
  }

  /** The variable is read, combined with the value, and written. */
  lemma SimCompound(code: Code, v: Emitted, x: Name, op: BinOp, a: Value, st: State, fuel: nat, f: Frame, base: nat)
    returns (n: nat, c: Config)
    requires Good(v.s, v.s) && Sim(v.s, st, f, base) && FindLocal(v.s.scopes, x).Some? && Holds(v.s, f, v.v, a, v.ty)
    requires EmitAssign(v, FindLocal(v.s.scopes, x).value, Compound(op)).Ok? && UniqueLabels(code)
    requires Within(EmitAssign(v, FindLocal(v.s.scopes, x).value, Compound(op)).value, code)
    ensures Runs(code, Running(f), n, c)
    ensures Lands(code, v.s, EmitAssign(v, FindLocal(v.s.scopes, x).value, Compound(op)).value, f,
                  EvalAssign(x, Compound(op), Res(Yield(a), st)), c, base, fuel, n, |v.s.scopes|)
  {
    hide Good, Within, Sim, Keeps, Lands, FindLocal, Update, Instr, Bound, Holds, EmitBinop, EmitAssign, LoadFrom, Lookup, Operate;
    var l := FindLocal(v.s.scopes, x).value;
    var s' := EmitAssign(v, l, Compound(op)).value;
    var cur, r := CompoundForm(v, l, op);
    CompoundSound(code, v, l, op, cur, r);
    var f1 := SimLoadVar(code, v.s, x, st, f, base);
    TmpGrows(v.s, cur.s);
    HoldsKept(v.s, cur.s, f, f1, v.v, a, v.ty);
    var prior := Lookup(st.env, x);
    n, c := SimBinop(code, cur.s, op, cur.v, l.ty, v.v, v.ty, st, fuel, f1, base, prior, a);
    var res := OfOp(Operate(op, prior, a), st);
    ChainExpr(code, v.s, cur.s, r, f, 1, f1, res, c, base, fuel, n);
    n := n + 1;
    if res.out.Yield? {
      YieldThrough(code, v.s, r, f, res, c, base, fuel, n);
      var f2 := c.f;
      HeldValue(r.s, f2, r.v, res.out.v, r.ty);
      SimAssign(code, r.s, x, r.v, st, f2, base);
      RunsStep(code, Running(f2));
      c := Step(code, Running(f2));
      RunsTrans(code, Running(f), n, Running(f2), 1, c);
      n := n + 1;
      KeepsTrans(v.s, r.s, f, f2, c.f);
      Arrive(code, v.s, s', f, st.(env := Update(st.env, x, res.out.v)), c.f, base, fuel, n, |v.s.scopes|);
    } else {
      LandsEarly(code, v.s, r.s, s', f, res, c, base, fuel, n, |v.s.scopes|);
    }
  }

  // ---------------------------------------------------------------- printing

  lemma {:induction false} SimPrintStmt(code: Code, s: Em, x: Stmt, st: State, fuel: nat, f: Frame, base: nat)
    returns (n: nat, c: Config)
    requires x.Print?
    requires Good(s, s) && EmitStmt(s, x).Ok? && Sim(s, st, f, base) && Ctx(code, s)
    requires Within(EmitStmt(s, x).value, code)
    ensures Runs(code, Running(f), n, c)
    ensures Lands(code, s, EmitStmt(s, x).value, f, EvalStmt(x, st, fuel), c, base, fuel, n, |s.scopes|)
    decreases fuel, x, 2
  {
    hide Good, Within, Sim, Keeps, Lands, Ctx, EmitPrint, EvalPrint;
    assert AllShown(s, f, [], []);
    n, c := SimPrint(code, s, x.items, [], [], st, fuel, f, base);
  }

  lemma {:induction false} SimPrint(code: Code, s: Em, items: seq<Item>, ready: seq<Ready>, shown: seq<Shown>, st: State,
                                    fuel: nat, f: Frame, base: nat)
    returns (n: nat, c: Config)
    requires Good(s, s) && EmitPrint(s, items, ready).Ok? && Sim(s, st, f, base) && Ctx(code, s)
    requires Within(EmitPrint(s, items, ready).value, code) && AllShown(s, f, ready, shown)
    ensures Runs(code, Running(f), n, c)
    ensures Lands(code, s, EmitPrint(s, items, ready).value, f, EvalPrint(items, shown, st, fuel), c, base, fuel, n, |s.scopes|)
    decreases fuel, items, 1
  {
    hide Good, Within, Sim, Keeps, Lands, Ctx, EmitItem, EvalItem, AllShown, EmitReady, Output;
    if items == [] {
      var f';
      n, f' := SimReady(code, s, ready, shown, st, f, base);
      c := Running(f');
      Arrive(code, s, EmitReady(s, ready), f, st.(log := st.log + Output(shown)), f', base, fuel, n, |s.scopes|);
    } else {
      var item, r, s' := items[0], EmitItem(s, items[0]).value, EmitPrint(s, items, ready).value;
      ItemGood(s, item);
      Refl(s, r.0);
      PrintGood(r.0, items[1..], ready + [r.1]);
      WithinBack(r.0, s', code);
      n, c := SimItem(code, s, item, st, fuel, f, base);
      var res := EvalItem(item, st, fuel);
      if res.out == Done || res.out.Yield? {
        ItemThrough(code, s, item, st, fuel, f, c, base, n);
        var n1, f1 := n, c.f;
        var sh := if res.out == Done then ShownText(item.s) else ShownValue(res.out.v);
        CtxGood(code, s, r.0);
        TmpGrows(s, r.0);
        ShownKept(s, r.0, f, f1, ready, shown);
        ShownMore(r.0, f1, ready, shown, r.1, sh);
        var n2;
        n2, c := SimPrint(code, r.0, items[1..], ready + [r.1], shown + [sh], res.st, fuel, f1, base);
        Chain(code, s, r.0, s', f, n1, f1, EvalPrint(items[1..], shown + [sh], res.st, fuel), c, base, fuel, n2, |s.scopes|);
        n := n1 + n2;
      } else {
        ItemEarly(code, s, item, st, fuel, f, c, base, n, s');
      }
    }
  }

  lemma ShownMore(s: Em, f: Frame, ready: seq<Ready>, shown: seq<Shown>, r: Ready, sh: Shown)
    requires AllShown(s, f, ready, shown) && ShownAs(s, f, r, sh)
    ensures AllShown(s, f, ready + [r], shown + [sh])
  {
  }

  /** An item to print: a text costs nothing, a value is computed. */
  ghost predicate LandsItem(code: Code, s: Em, r: (Em, Ready), item: Item, f: Frame, res: Res, c: Config, base: nat, fuel: nat, n: nat) {
    if res.out == Done then
      item.Text? && c == Running(f) && Sim(r.0, res.st, f, base) && ShownAs(r.0, f, r.1, ShownText(item.s)) && Keeps(s, f, f)
    else
      && Lands(code, s, r.0, f, res, c, base, fuel, n, |s.scopes|)
      && (res.out.Yield? ==> c.Running? && ShownAs(r.0, c.f, r.1, ShownValue(res.out.v)))
  }

  lemma {:induction false} SimItem(code: Code, s: Em, item: Item, st: State, fuel: nat, f: Frame, base: nat)
    returns (n: nat, c: Config)
    requires Good(s, s) && EmitItem(s, item).Ok? && Sim(s, st, f, base) && Ctx(code, s)
    requires Within(EmitItem(s, item).value.0, code)
    ensures Runs(code, Running(f), n, c)
    ensures LandsItem(code, s, EmitItem(s, item).value, item, f, EvalItem(item, st, fuel), c, base, fuel, n)
    decreases fuel, item, 1
  {
    hide Good, Within, Sim, Keeps, Lands, Ctx, EmitExpr, EvalExpr, Holds;
    match item {
      case Text(_) =>
        n, c := 0, Running(f);
        KeepsRefl(s, f);
      case Piece(e) =>
        n, c := SimExpr(code, s, e, st, fuel, f, base);
        var res := EvalExpr(e, st, fuel);
        if res.out.Yield? {
          YieldThrough(code, s, EmitExpr(s, e).value, f, res, c, base, fuel, n);
        }
    }
  }

  lemma ItemThrough(code: Code, s: Em, item: Item, st: State, fuel: nat, f: Frame, c: Config, base: nat, n: nat)
    requires EmitItem(s, item).Ok?
    requires var res, r := EvalItem(item, st, fuel), EmitItem(s, item).value;
             LandsItem(code, s, r, item, f, res, c, base, fuel, n) && (res.out == Done || res.out.Yield?)
    ensures var res, r := EvalItem(item, st, fuel), EmitItem(s, item).value;
            && c.Running? && Sim(r.0, res.st, c.f, base) && Keeps(s, f, c.f)
            && ShownAs(r.0, c.f, r.1, if res.out == Done then ShownText(item.s) else ShownValue(res.out.v))
  {
    hide Sim, Keeps, EvalItem, EmitItem, Holds;
  }

  lemma ItemEarly(code: Code, s: Em, item: Item, st: State, fuel: nat, f: Frame, c: Config, base: nat, n: nat, s': Em)
    requires EmitItem(s, item).Ok?
    requires var res, r := EvalItem(item, st, fuel), EmitItem(s, item).value;
             LandsItem(code, s, r, item, f, res, c, base, fuel, n) && res.out != Done && !res.out.Yield?
    ensures Lands(code, s, s', f, EvalItem(item, st, fuel), c, base, fuel, n, |s.scopes|)
  {
    hide Lands, EvalItem, EmitItem, ShownAs;
    LandsEarly(code, s, EmitItem(s, item).value.0, s', f, EvalItem(item, st, fuel), c, base, fuel, n, |s.scopes|);
  }

  // ---------------------------------------------------------------- leaving: return, break, continue

  /** The arenas above number `depth` are destroyed. */
  lemma SimUnwind(code: Code, s: Em, depth: nat, st: State, f: Frame, base: nat) returns (n: nat, f': Frame)
    requires Sim(s, st, f, base) && depth <= |s.arenas| && Within(DestroyArenasFrom(s, depth), code)
    ensures Runs(code, Running(f), n, Running(f'))
    ensures f'.pc == |DestroyArenasFrom(s, depth).body| && !DestroyArenasFrom(s, depth).terminated
    ensures f'.regs == f.regs && f'.slots == f.slots && f'.open == base + depth
    ensures st.open == base + |s.arenas| && f'.log == CloseLog(st.log, base + depth, st.open)
  {
    hide MatchEnv, DestroyDown, Within, CloseLog;
    n, f' := SimDestroy(code, s, |s.arenas|, depth, f, base);
  }

  lemma LeaveBody(s: Em, depth: nat, t: Term)
    ensures var d := DestroyArenasFrom(s, depth);
            s.body <= d.body && d.body <= Terminate(d, t).body && s.body <= Terminate(d, t).body
  {
    hide DestroyDown, Terminate;
    var d := DestroyArenasFrom(s, depth);
    DestroyBody(s, |s.arenas|, depth);
    TermBody(d, t);
    PrefixTrans(s.body, d.body, Terminate(d, t).body);
  }

  /** The return, after the arenas of the call have been destroyed. */
  lemma SimRet(code: Code, s: Em, os: seq<Operand>, vs: seq<Value>, st: State, fuel: nat, f: Frame, base: nat, s': Em)
    returns (n: nat, c: Config)
    requires Sim(s, st, f, base) && Within(Terminate(DestroyArenasFrom(s, 0), Ret(os)), code)
    requires ResultType(s.ret, vs) && |os| <= 1
    requires (forall o :: o in os ==> Readable(f, o)) && ReadAll(f, os) == vs
    ensures Runs(code, Running(f), n, c)
    ensures Lands(code, s, s', f, Res(Returned(vs), st), c, base, fuel, n, |s.scopes|)
  {
    hide Sim, CloseLog, DestroyArenasFrom;
    var d := DestroyArenasFrom(s, 0);
    LeaveBody(s, 0, Ret(os));
    WithinPrefix(d, Terminate(d, Ret(os)), code);
    var m, f1 := SimUnwind(code, s, 0, st, f, base);
    NextLine(code, d, TermLine(Ret(os)), f1);
    ReadSame(f, f1, os);
    RunsStep(code, Running(f1));
    c := Step(code, Running(f1));
    n := m + 1;
    RunsTrans(code, Running(f), m, Running(f1), 1, c);
  }

  lemma ReadSame(f: Frame, f': Frame, os: seq<Operand>)
    requires f'.regs == f.regs && |os| <= 1 && forall o :: o in os ==> Readable(f, o)
    ensures (forall o :: o in os ==> Readable(f', o)) && ReadAll(f', os) == ReadAll(f, os)
  {
    if os != [] {
      assert ReadAll(f, os[1..]) == [] == ReadAll(f', os[1..]);
    }
  }

  lemma {:induction false} SimReturn(code: Code, s: Em, x: Stmt, st: State, fuel: nat, f: Frame, base: nat)
    returns (n: nat, c: Config)
    requires x.Return?
    requires Good(s, s) && EmitStmt(s, x).Ok? && Sim(s, st, f, base) && Ctx(code, s)
    requires Within(EmitStmt(s, x).value, code)
    ensures Runs(code, Running(f), n, c)
    ensures Lands(code, s, EmitStmt(s, x).value, f, EvalStmt(x, st, fuel), c, base, fuel, n, |s.scopes|)
    decreases fuel, x, 2
  {
    hide Good, Within, Sim, Keeps, Lands, Ctx, EmitExpr, EvalExpr, Holds, DestroyArenasFrom, Terminate, DoReturn;
    var s' := EmitStmt(s, x).value;
    if x.result.NoResult? {
      n, c := SimRet(code, s, [], [], st, fuel, f, base, s');
    } else {
      n, c := SimReturnValue(code, s, x.result.e, st, fuel, f, base);
    }
  }

  /** A value that is returned. */
  lemma {:induction false} SimReturnValue(code: Code, s: Em, e: Expr, st: State, fuel: nat, f: Frame, base: nat)
    returns (n: nat, c: Config)
    requires Good(s, s) && EmitExpr(s, e).Ok? && DoReturn(EmitExpr(s, e).value).Ok? && Sim(s, st, f, base) && Ctx(code, s)
    requires Within(DoReturn(EmitExpr(s, e).value).value, code)
    ensures Runs(code, Running(f), n, c)
    ensures var r := EvalExpr(e, st, fuel);
            Lands(code, s, DoReturn(EmitExpr(s, e).value).value, f, if r.out.Yield? then Res(Returned([r.out.v]), r.st) else r, c,
                  base, fuel, n, |s.scopes|)
    decreases fuel, e, 3
  {
    hide Good, Within, Sim, Keeps, Lands, Ctx, EmitExpr, EvalExpr, Holds, DestroyArenasFrom, Terminate;
    var v := EmitExpr(s, e).value;
    var s' := DoReturn(v).value;
    LeaveBody(v.s, 0, Ret([v.v]));
    WithinPrefix(v.s, s', code);
    ExprGood(s, e);
    n, c := SimExpr(code, s, e, st, fuel, f, base);
    var res := EvalExpr(e, st, fuel);
    if res.out.Yield? {
      YieldThrough(code, s, v, f, res, c, base, fuel, n);
      var n1, f1 := n, c.f;
      HeldValue(v.s, f1, v.v, res.out.v, v.ty);
      var n2;
      n2, c := SimRet(code, v.s, [v.v], [res.out.v], res.st, fuel, f1, base, s');
      Chain(code, s, v.s, s', f, n1, f1, Res(Returned([res.out.v]), res.st), c, base, fuel, n2, |s.scopes|);
      n := n1 + n2;
    } else {
      EarlyStmt(code, s, v, s', f, res, c, base, fuel, n);
    }
  }

  /** `break` and `continue`. */
  lemma {:induction false} SimJump(code: Code, s: Em, x: Stmt, st: State, fuel: nat, f: Frame, base: nat)
    returns (n: nat, c: Config)
    requires x.Break? || x.Continue?
    requires Good(s, s) && EmitStmt(s, x).Ok? && Sim(s, st, f, base) && Ctx(code, s)
    requires Within(EmitStmt(s, x).value, code)
    ensures Runs(code, Running(f), n, c)
    ensures Lands(code, s, EmitStmt(s, x).value, f, EvalStmt(x, st, fuel), c, base, fuel, n, |s.scopes|)
    decreases fuel, x, 2
  {
    hide Good, DestroyArenasFrom, Ctx, CloseLog, MatchEnv, Keeps;
    CtxTop(code, s);
    var l := s.loops[|s.loops| - 1];
    var to := if x.Break? then l.brk else l.cont;
    var d := DestroyArenasFrom(s, l.depth);
    LeaveBody(s, l.depth, Br(to));
    WithinPrefix(d, Terminate(d, Br(to)), code);
    var m, f1 := SimUnwind(code, s, l.depth, st, f, base);
    NextLine(code, d, TermLine(Br(to)), f1);
    RunsStep(code, Running(f1));
    c := Step(code, Running(f1));
    n := m + 1;
    RunsTrans(code, Running(f), m, Running(f1), 1, c);
    KeepsRefl(s, f);
    KeepsSame(s, f, f, c.f);
    assert s.scopes[..|s.scopes|] == s.scopes && st.env[..|s.scopes|] == st.env by { EnvLength(s, st, f); }
  }

  lemma EnvLength(s: Em, st: State, f: Frame)
    requires MatchEnv(s.scopes, st.env, f.slots)
    ensures |st.env| == |s.scopes|
  {
  }

  lemma CtxTop(code: Code, s: Em)
    requires Ctx(code, s) && s.loops != []
    ensures var l := s.loops[|s.loops| - 1]; LabelLine(l.cont) in code && LabelLine(l.brk) in code && l.depth <= |s.arenas|
  {
  }

  // ---------------------------------------------------------------- arena blocks

  ghost predicate WithSteps(s: Em, x: Stmt, v: Emitted, inner: Em) {
    && x.With? && EmitExpr(s, x.size) == Ok(v) && v.ty == I64 && EmitBlock(CreateArena(v), x.body) == Ok(inner)
    && EmitStmt(s, x) == Ok(LeaveArena(inner))
  }

  lemma WithForm(s: Em, x: Stmt) returns (v: Emitted, inner: Em)
    requires x.With? && EmitStmt(s, x).Ok?
    ensures WithSteps(s, x, v, inner)
  {
    hide EmitExpr, CreateArena, LeaveArena, EmitBlock;
    v := EmitExpr(s, x.size).value;
    inner := EmitBlock(CreateArena(v), x.body).value;
  }

  lemma WithSound(code: Code, s: Em, x: Stmt, v: Emitted, inner: Em)
    requires Good(s, s) && WithSteps(s, x, v, inner) && Within(LeaveArena(inner), code) && Ctx(code, s)
    ensures Same(s, v.s) && Good(v.s, v.s) && Good(CreateArena(v), CreateArena(v)) && Same(CreateArena(v), inner)
    ensures Within(v.s, code) && Within(CreateArena(v), code) && Within(inner, code)
    ensures Ctx(code, v.s) && Ctx(code, CreateArena(v)) && |CreateArena(v).scopes| == |v.s.scopes| == |s.scopes|
  {
    hide EmitExpr, EmitStmt, EmitBlock, Good, CreateArena, Ctx;
    ExprGood(s, x.size);
    Refl(s, v.s);
    CreateGood(s, v);
    BlockGood(CreateArena(v), x.body);
    LeaveBodyGrows(inner);
    WithinPrefix(inner, LeaveArena(inner), code);
    WithinBack(CreateArena(v), inner, code);
    CreateForm(v);
    WithinPrefix(v.s, CreateArena(v), code);
    CtxGood(code, s, v.s);
    CtxArena(code, v);
  }

  lemma LeaveBodyGrows(s: Em)
    ensures s.body <= LeaveArena(s).body
  {
    if s.arenas != [] {
      InstrBody(s, ArenaDestroy(s.arenas[|s.arenas| - 1]));
      hide Instr;
    }
  }

  lemma {:induction false} SimWith(code: Code, s: Em, x: Stmt, st: State, fuel: nat, f: Frame, base: nat)
    returns (n: nat, c: Config)
    requires x.With?
    requires Good(s, s) && EmitStmt(s, x).Ok? && Sim(s, st, f, base) && Ctx(code, s)
    requires Within(EmitStmt(s, x).value, code)
    ensures Runs(code, Running(f), n, c)
    ensures Lands(code, s, EmitStmt(s, x).value, f, EvalStmt(x, st, fuel), c, base, fuel, n, |s.scopes|)
    decreases fuel, x, 2
  {
    hide EmitExpr, EvalExpr, EmitStmt, EmitBlock, EvalBlock, Good, CreateArena, LeaveArena, Ctx, Within, Sim, Keeps, Lands, Holds;
    hide OpenArena, CloseArena;
    var v, inner := WithForm(s, x);
    var s' := LeaveArena(inner);
    WithSound(code, s, x, v, inner);
    n, c := SimExpr(code, s, x.size, st, fuel, f, base);
    var res := EvalExpr(x.size, st, fuel);
    if res.out.Yield? {
      YieldThrough(code, s, v, f, res, c, base, fuel, n);
      IntHeld(v.s, c.f, v.v, res.out.v);
      var n1, f1, size := n, c.f, res.out.v.n;
      var f2 := SimCreate(code, v, size, res.st, f1, base);
      var st2 := OpenArena(res.st, size);
      var body := EvalBlock(x.body, st2, fuel);
      var n3;
      n3, c := SimBlock(code, CreateArena(v), x.body, st2, fuel, f2, base);
      n3, c := LandsLeave(code, v, inner, f1, f2, body, c, base, fuel, n3);
      RunsTrans(code, Running(f1), 1, Running(f2), n3, c);
      LandsMore(code, v.s, s', f1, CloseArena(body), c, base, fuel, n3, 1 + n3, |s.scopes|);
      Chain(code, s, v.s, s', f, n1, f1, CloseArena(body), c, base, fuel, 1 + n3, |s.scopes|);
      n := n1 + (1 + n3);
    } else {
      EarlyStmt(code, s, v, s', f, res, c, base, fuel, n);
    }
  }

  lemma LandsMore(code: Code, s: Em, s': Em, f: Frame, res: Res, c: Config, base: nat, fuel: nat, n: nat, n': nat, k: nat)
    requires Lands(code, s, s', f, res, c, base, fuel, n, k) && n <= n'
    ensures Lands(code, s, s', f, res, c, base, fuel, n', k)
  {
    hide Sim, Keeps, AtLoop, CloseLog;
  }

  lemma IntHeld(s: Em, f: Frame, o: Operand, v: Value)
    requires Holds(s, f, o, v, I64)
    ensures v.IntV? && Readable(f, o) && Read(f, o) == v
  {
  }

  // ---------------------------------------------------------------- if statements

  lemma {:induction false} SimIfStmt(code: Code, s: Em, x: Stmt, st: State, fuel: nat, f: Frame, base: nat)
    returns (n: nat, c: Config)
    requires x.If?
    requires Good(s, s) && EmitStmt(s, x).Ok? && Sim(s, st, f, base) && Ctx(code, s)
    requires Within(EmitStmt(s, x).value, code)
    ensures Runs(code, Running(f), n, c)
    ensures Lands(code, s, EmitStmt(s, x).value, f, EvalStmt(x, st, fuel), c, base, fuel, n, |s.scopes|)
    decreases fuel, x, 2
  {
    hide EmitArms, EvalArms, Good, Begin, Ctx, Within, Sim, Keeps, Lands, Pending;
    var end, s1 := s.lbl + 1, NewLabels(s, 1);
    LabelsGood(s, s, 1);
    Refl(s, s1);
    CtxGood(code, s, s1);
    SimNewLabels(s, 1, st, f, base);
    n, c := SimArms(code, s1, x.ifArms, end, st, fuel, f, base);
    KeepsRefl(s, f);
    RunsZero(code, f);
    Chain(code, s, s1, EmitStmt(s, x).value, f, 0, f, EvalArms(x.ifArms, st, fuel), c, base, fuel, n, |s.scopes|);
  }

  ghost predicate BranchSteps(s: Em, arms: Arms, end: Label, c: Emitted, b: Em, r: Em) {
    && arms.Arm? && EmitExpr(s, arms.cond) == Ok(c) && c.ty == I1 && EmitBranch(OpenThen(c), arms.branch) == Ok(b)
    && EmitArms(NextArm(c, b, end), arms.others, end) == Ok(r) && EmitArms(s, arms, end) == Ok(r)
  }

  lemma BranchForm(s: Em, arms: Arms, end: Label) returns (c: Emitted, b: Em, r: Em)
    requires arms.Arm? && EmitArms(s, arms, end).Ok?
    ensures BranchSteps(s, arms, end, c, b, r)
  {
    hide EmitExpr, EmitBranch, Begin, EndBranch, OpenThen;
    c := EmitExpr(s, arms.cond).value;
    b := EmitBranch(OpenThen(c), arms.branch).value;
    r := EmitArms(s, arms, end).value;
  }

  lemma BranchTypes(s: Em, arms: Arms, end: Label, c: Emitted, b: Em, r: Em)
    requires BranchSteps(s, arms, end, c, b, r)
    ensures arms.Arm? && EmitExpr(s, arms.cond) == Ok(c) && c.ty == I1 && EmitArms(s, arms, end) == Ok(r)
    ensures EmitBranch(OpenThen(c), arms.branch) == Ok(b) && EmitArms(NextArm(c, b, end), arms.others, end) == Ok(r)
  {
    hide EmitExpr, EmitBranch, EmitArms, OpenThen, NextArm;
  }

  lemma BranchSound(code: Code, s: Em, arms: Arms, end: Label, c: Emitted, b: Em, r: Em)
    requires BranchSteps(s, arms, end, c, b, r) && Good(s, s) && Ctx(code, s) && Within(Begin(r, end), code)
    ensures ForkSound(s, c, b, end) && ForkShape(code, c, b, end)
    ensures Ctx(code, OpenThen(c)) && Ctx(code, NextArm(c, b, end)) && UniqueLabels(code)
    ensures EndsWith(Begin(r, end), end) && Begin(r, end).scopes == b.scopes && Begin(r, end).arenas == b.arenas
    ensures Same(s, OpenThen(c)) && Same(s, NextArm(c, b, end))
  {
    hide EmitExpr, EmitBranch, EmitArms, Good, Begin, OpenThen, NextArm, ForkSound, ForkShape, Ctx, Pending;
    var open, next := OpenThen(c), NextArm(c, b, end);
    ExprGood(s, arms.cond);
    OpenSound(s, c);
    BranchStmtGood(open, arms.branch);
    ForkStays(s, c, b, end);
    Refl(s, s);
    ForkSame(s, s, c, b, end);
    ArmsGood(next, arms.others, end);
    BeginEnds(r, end);
    WithinPrefix(r, Begin(r, end), code);
    WithinBack(next, r, code);
    CtxLabels(code, s);
    ForkPlaces(code, c, b, end);
    CtxGood(code, s, open);
    CtxGood(code, s, next);
    SameFields(next, r);
    SameFields(s, next);
    SameFields(s, b);
  }

  /** The arms of an `if` statement, up to the block where they meet. */
  lemma {:induction false} SimArms(code: Code, s: Em, arms: Arms, end: Label, st: State, fuel: nat, f: Frame, base: nat)
    returns (n: nat, c: Config)
    requires Good(s, s) && EmitArms(s, arms, end).Ok? && Sim(s, st, f, base) && Ctx(code, s)
    requires Within(Begin(EmitArms(s, arms, end).value, end), code)
    ensures Runs(code, Running(f), n, c)
    ensures Lands(code, s, Begin(EmitArms(s, arms, end).value, end), f, EvalArms(arms, st, fuel), c, base, fuel, n, |s.scopes|)
    decreases fuel, arms, 3
  {
    hide Good, Begin, Ctx, Within, Sim, Keeps, Lands, EmitBranch, EvalBranch;
    match arms {
      case NoElse =>
        CtxLabels(code, s);
        var f1 := SimFallThrough(code, s, end, st, f, base);
        n, c := 1, Running(f1);
        KeepsRefl(s, f);
        KeepsSame(s, f, f, f1);
        Arrive(code, s, Begin(s, end), f, st, f1, base, fuel, n, |s.scopes|);
      case Else(last) =>
        n, c := SimElse(code, s, last, end, st, fuel, f, base);
      case Arm(_, _, _) =>
        n, c := SimArm(code, s, arms, end, st, fuel, f, base);
    }
  }

  lemma {:induction false} SimElse(code: Code, s: Em, b: Branch, end: Label, st: State, fuel: nat, f: Frame, base: nat)
    returns (n: nat, c: Config)
    requires Good(s, s) && EmitBranch(s, b).Ok? && Sim(s, st, f, base) && Ctx(code, s)
    requires Within(Begin(EmitBranch(s, b).value, end), code)
    ensures Runs(code, Running(f), n, c)
    ensures Lands(code, s, Begin(EmitBranch(s, b).value, end), f, EvalBranch(b, st, fuel), c, base, fuel, n, |s.scopes|)
    decreases fuel, b, 5
  {
    hide Good, Begin, Ctx, Within, Sim, Keeps, Lands, EmitBranch, EvalBranch;
    var r := EmitBranch(s, b).value;
    var e := Begin(r, end);
    BeginEnds(r, end);
    WithinPrefix(r, e, code);
    CtxLabels(code, s);
    n, c := SimBranch(code, s, b, st, fuel, f, base);
    var res := EvalBranch(b, st, fuel);
    if res.out == Done {
      Through(code, s, r, f, res, c, base, fuel, n, |s.scopes|);
      var f1 := c.f;
      var f2 := SimFallThrough(code, r, end, res.st, f1, base);
      RunsTrans(code, Running(f), n, Running(f1), 1, Running(f2));
      KeepsSame(s, f, f1, f2);
      n, c := n + 1, Running(f2);
      Arrive(code, s, e, f, res.st, f2, base, fuel, n, |s.scopes|);
    } else {
      LandsEarly(code, s, r, e, f, res, c, base, fuel, n, |s.scopes|);
    }
  }

  lemma {:induction false} SimBranch(code: Code, s: Em, b: Branch, st: State, fuel: nat, f: Frame, base: nat)
    returns (n: nat, c: Config)
    requires Good(s, s) && EmitBranch(s, b).Ok? && Sim(s, st, f, base) && Ctx(code, s)
    requires Within(EmitBranch(s, b).value, code)
    ensures Runs(code, Running(f), n, c)
    ensures Lands(code, s, EmitBranch(s, b).value, f, EvalBranch(b, st, fuel), c, base, fuel, n, |s.scopes|)
    decreases fuel, b, 4
  {
    hide Good, Ctx, Within, Sim, Keeps, Lands, EmitBlock, EmitStmt, EvalBlock, EvalStmt;
    match b {
      case Block(stmts) => n, c := SimBlock(code, s, stmts, st, fuel, f, base);
      case Single(x) => n, c := SimStmt(code, s, x, st, fuel, f, base);
    }
  }

  lemma {:induction false} SimArm(code: Code, s: Em, arms: Arms, end: Label, st: State, fuel: nat, f: Frame, base: nat)
    returns (n: nat, c: Config)
    requires arms.Arm?
    requires Good(s, s) && EmitArms(s, arms, end).Ok? && Sim(s, st, f, base) && Ctx(code, s)
    requires Within(Begin(EmitArms(s, arms, end).value, end), code)
    ensures Runs(code, Running(f), n, c)
    ensures Lands(code, s, Begin(EmitArms(s, arms, end).value, end), f, EvalArms(arms, st, fuel), c, base, fuel, n, |s.scopes|)
    decreases fuel, arms, 2
  {
    hide EmitExpr, EmitBranch, EmitArms, Good, Begin, OpenThen, NextArm, Ctx, Sim, Within, Keeps, Holds, Lands;
    hide BranchSteps, ForkSound, ForkShape, EvalBranch, EvalExpr;
    var x, b, r := BranchForm(s, arms, end);
    BranchTypes(s, arms, end, x, b, r);
    BranchSound(code, s, arms, end, x, b, r);
    ForkWithin(code, s, x, b, end);
    n, c := SimExpr(code, s, arms.cond, st, fuel, f, base);
    var e, res := Begin(r, end), EvalExpr(arms.cond, st, fuel);
    if res.out.Yield? {
      YieldThrough(code, s, x, f, res, c, base, fuel, n);
      BoolHeld(x.s, c.f, x.v, res.out.v);
      var n1, f1 := n, c.f;
      var f2 := SimFork(code, s, x, b, end, res.out.v.b, res.st, f1, base);
      RunsTrans(code, Running(f), n1, Running(f1), 1, Running(f2));
      KeepsSame(s, f, f1, f2);
      n, c := SimBranchRest(code, s, arms, end, x, b, r, res.out.v.b, res.st, fuel, f, n1 + 1, f2, base);
    } else {
      EarlyStmt(code, s, x, e, f, res, c, base, fuel, n);
    }
  }

  /** The branch that the condition chose, or the arms after it. */
  lemma {:induction false} SimBranchRest(code: Code, s: Em, arms: Arms, end: Label, x: Emitted, b: Em, r: Em, v: bool,
                                         st: State, fuel: nat, f: Frame, n: nat, f1: Frame, base: nat)
    returns (n': nat, c: Config)
    requires BranchSteps(s, arms, end, x, b, r) && Good(s, s) && Ctx(code, s)
    requires Within(Begin(r, end), code) && Runs(code, Running(f), n, Running(f1)) && Keeps(s, f, f1)
    requires Sim(if v then OpenThen(x) else NextArm(x, b, end), st, f1, base)
    ensures Runs(code, Running(f), n', c) && arms.Arm?
    ensures Lands(code, s, Begin(r, end), f,
                  if v then EvalBranch(arms.branch, st, fuel) else EvalArms(arms.others, st, fuel), c, base, fuel, n', |s.scopes|)
    decreases fuel, arms, 1
  {
    hide EmitExpr, EmitBranch, EmitArms, Good, Begin, OpenThen, NextArm, Ctx, Sim, Within, Keeps, Lands, EndBranch;
    hide BranchSteps, ForkSound, ForkShape, EvalBranch, EvalArms;
    BranchTypes(s, arms, end, x, b, r);
    BranchSound(code, s, arms, end, x, b, r);
    ForkWithin(code, s, x, b, end);
    var e, open := Begin(r, end), OpenThen(x);
    var m;
    if v {
      m, c := SimBranch(code, open, arms.branch, st, fuel, f1, base);
      var res := EvalBranch(arms.branch, st, fuel);
      if res.out == Done {
        Through(code, open, b, f1, res, c, base, fuel, m, |open.scopes|);
        var f2 := c.f;
        var f3 := SimLeaveBranch(code, b, end, e, res.st, f2, base);
        RunsTrans(code, Running(f1), m, Running(f2), 1, Running(f3));
        KeepsSame(open, f1, f2, f3);
        m, c := m + 1, Running(f3);
        Arrive(code, open, e, f1, res.st, f3, base, fuel, m, |s.scopes|);
      } else {
        LandsEarly(code, open, b, e, f1, res, c, base, fuel, m, |s.scopes|);
      }
      Chain(code, s, open, e, f, n, f1, res, c, base, fuel, m, |s.scopes|);
    } else {
      m, c := SimArms(code, NextArm(x, b, end), arms.others, end, st, fuel, f1, base);
      Chain(code, s, NextArm(x, b, end), e, f, n, f1, EvalArms(arms.others, st, fuel), c, base, fuel, m, |s.scopes|);
    }
    n' := n + m;
  }

  // ---------------------------------------------------------------- loops

  /** The parts of a loop in the finished code: the end of the body leads to `cont`, at the end of state `h`;
      `brk` is at the end of state `e`. */
  ghost predicate LoopPlaces(code: Code, bs: Em, inner: Em, h: Em, e: Em, cont: Label, brk: Label) {
    && UniqueLabels(code) && Within(EndBranch(PopLoop(inner), cont), code)
    && Within(h, code) && Within(e, code) && EndsWith(h, cont) && EndsWith(e, brk)
    && inner.scopes == h.scopes == e.scopes == bs.scopes && inner.arenas == h.arenas == e.arenas == bs.arenas
  }

  /** Where one round of a loop body leads. */
  ghost predicate LoopRound(code: Code, bs: Em, h: Em, e: Em, f: Frame, r: Res, c: Config, base: nat, fuel: nat, n: nat) {
    if r.out == Done || r.out == Continued then
      c.Running? && Sim(h, r.st, c.f, base) && Keeps(bs, f, c.f) && n > 0
    else if r.out == Broke then
      c.Running? && Sim(e, r.st, c.f, base) && Keeps(bs, f, c.f)
    else
      Lands(code, bs, e, f, r, c, base, fuel, n, |bs.scopes|)
  }

  lemma ArenaRegs(s: Em, f: Frame, f': Frame, base: nat)
    requires Good(s, s) && ArenasIn(s.arenas, f.regs, base) && Keeps(s, f, f')
    ensures ArenasIn(s.arenas, f'.regs, base)
  {
    hide LabelsOk, BlocksClosed, SlotsOk, Grows, InScope;
    forall i | 0 <= i < |s.arenas|
      ensures s.arenas[i] in f'.regs && f'.regs[s.arenas[i]] == ArenaV(base + i)
    {
      var a := s.arenas[i];
      assert a in s.arenas;
      assert a in f.regs && a <= s.tmp;
    }
  }

  /** A jump of `break` or `continue` arrives at its label with the variables and arenas the loop needs. */
  lemma LoopBack(code: Code, bs: Em, pl: Em, to: Em, l: Label, st0: State, st: State, f: Frame, f': Frame, base: nat)
    requires Good(bs, bs) && pl.scopes == bs.scopes && pl.arenas == bs.arenas && UniqueLabels(code)
    requires Sim(bs, st0, f, base) && Keeps(bs, f, f') && AtLoop(code, pl, l, |bs.arenas|, st, f', base, |bs.scopes|)
    requires EndsWith(to, l) && Within(to, code) && to.scopes == bs.scopes && to.arenas == bs.arenas
    ensures Sim(to, st, f', base)
  {
    ArenaRegs(bs, f, f', base);
    hide Good, Keeps, MatchEnv;
    JumpTo(code, to, l, f');
    assert bs.scopes[..|bs.scopes|] == bs.scopes && st.env[..|bs.scopes|] == st.env;
  }

  lemma KeepsLoop(s: Em, cont: Label, brk: Label, f: Frame, f': Frame)
    requires Keeps(PushLoop(s, cont, brk), f, f')
    ensures Keeps(s, f, f')
  {
  }

  lemma SimLoopContext(s: Em, s': Em, st: State, f: Frame, base: nat)
    requires Sim(s, st, f, base) && s'.scopes == s.scopes && s'.arenas == s.arenas && s'.body == s.body
    requires s'.terminated == s.terminated
    ensures Sim(s', st, f, base)
  {
  }

  /** What a round of the body says about the outer context, when it neither reached its end nor jumped. */
  lemma LandsOut(code: Code, bs: Em, cont: Label, brk: Label, inner: Em, e: Em, f: Frame, r: Res, c: Config, base: nat,
                 fuel: nat, n: nat)
    requires Lands(code, PushLoop(bs, cont, brk), inner, f, r, c, base, fuel, n, |bs.scopes|)
    requires !Normal(r.out) && r.out != Broke && r.out != Continued
    ensures Lands(code, bs, e, f, r, c, base, fuel, n, |bs.scopes|)
  {
    hide CloseLog, Sim, Keeps, AtLoop;
  }

  lemma LandsJump(code: Code, bs: Em, cont: Label, brk: Label, inner: Em, f: Frame, r: Res, c: Config, base: nat, fuel: nat, n: nat)
    requires Lands(code, PushLoop(bs, cont, brk), inner, f, r, c, base, fuel, n, |bs.scopes|)
    requires r.out == Broke || r.out == Continued
    ensures c.Running? && Keeps(bs, f, c.f) && (r.out == Continued ==> n > 0)
    ensures AtLoop(code, PushLoop(bs, cont, brk), if r.out == Broke then brk else cont, |bs.arenas|, r.st, c.f, base, |bs.scopes|)
  {
    hide CloseLog, Sim, Keeps, AtLoop;
    KeepsLoop(bs, cont, brk, f, c.f);
  }

  /** After the body of a loop. */
  lemma LoopAfter(code: Code, bs: Em, inner: Em, h: Em, e: Em, cont: Label, brk: Label, st: State, f: Frame, r: Res,
                  c: Config, base: nat, fuel: nat, n: nat)
    returns (n': nat, c': Config)
    requires Good(bs, bs) && LoopPlaces(code, bs, inner, h, e, cont, brk) && Sim(bs, st, f, base) && !r.out.Yield?
    requires Runs(code, Running(f), n, c)
    requires Lands(code, PushLoop(bs, cont, brk), inner, f, r, c, base, fuel, n, |bs.scopes|)
    ensures Runs(code, Running(f), n', c') && LoopRound(code, bs, h, e, f, r, c', base, fuel, n')
  {
    hide Good, Within, Sim, Keeps, Lands, EndBranch, AtLoop;
    var pl := PushLoop(bs, cont, brk);
    n', c' := n, c;
    if r.out == Done {
      Through(code, pl, inner, f, r, c, base, fuel, n, |bs.scopes|);
      KeepsLoop(bs, cont, brk, f, c.f);
      SimLoopContext(inner, PopLoop(inner), r.st, c.f, base);
      var f' := SimLeaveBranch(code, PopLoop(inner), cont, h, r.st, c.f, base);
      RunsTrans(code, Running(f), n, c, 1, Running(f'));
      KeepsSame(bs, f, c.f, f');
      n', c' := n + 1, Running(f');
    } else if r.out == Continued || r.out == Broke {
      LandsJump(code, bs, cont, brk, inner, f, r, c, base, fuel, n);
      LoopBack(code, bs, pl, if r.out == Broke then e else h, if r.out == Broke then brk else cont, st, r.st, f, c.f, base);
    } else {
      LandsOut(code, bs, cont, brk, inner, e, f, r, c, base, fuel, n);
    }
  }

  /** A round that ended the loop. */
  lemma RoundOut(code: Code, s: Em, bs: Em, h: Em, e: Em, f: Frame, n1: nat, f1: Frame, r: Res, c: Config, base: nat,
                 fuel: nat, n2: nat)
    requires Same(s, bs) && Keeps(s, f, f1) && Runs(code, Running(f), n1, Running(f1)) && Runs(code, Running(f1), n2, c)
    requires LoopRound(code, bs, h, e, f1, r, c, base, fuel, n2) && r.out != Done && r.out != Continued
    ensures Runs(code, Running(f), n1 + n2, c)
    ensures Lands(code, s, e, f, if r.out == Broke then Res(Done, r.st) else r, c, base, fuel, n1 + n2, |s.scopes|)
  {
    hide Good, Sim, Keeps, Lands;
    if r.out == Broke {
      RunsTrans(code, Running(f), n1, Running(f1), n2, c);
      KeepsTrans(s, bs, f, f1, c.f);
      Arrive(code, s, e, f, r.st, c.f, base, fuel, n1 + n2, |s.scopes|);
    } else {
      Chain(code, s, bs, e, f, n1, f1, r, c, base, fuel, n2, |s.scopes|);
    }
  }

  /** A round that leads back to the head of the loop. */
  lemma RoundBack(code: Code, s: Em, bs: Em, h: Em, e: Em, f: Frame, n1: nat, f1: Frame, r: Res, c: Config, base: nat,
                  fuel: nat, n2: nat)
    requires Same(s, bs) && Keeps(s, f, f1) && Runs(code, Running(f), n1, Running(f1)) && Runs(code, Running(f1), n2, c)
    requires LoopRound(code, bs, h, e, f1, r, c, base, fuel, n2) && (r.out == Done || r.out == Continued)
    ensures Runs(code, Running(f), n1 + n2, c) && n1 + n2 > 0
    ensures c.Running? && Sim(h, r.st, c.f, base) && Keeps(s, f, c.f)
    ensures Lands(code, s, e, f, Res(Timeout, r.st), c, base, 0, n1 + n2, |s.scopes|)
  {
    RunsTrans(code, Running(f), n1, Running(f1), n2, c);
    hide Good, MatchEnv, Keeps;
    KeepsTrans(s, bs, f, f1, c.f);
  }

  /** The rest of a loop, one round of fuel later. */
  lemma NextRound(code: Code, s: Em, e: Em, f: Frame, n1: nat, f1: Frame, res: Res, c: Config, base: nat, fuel: nat, n2: nat)
    requires Good(s, s) && Keeps(s, f, f1) && Runs(code, Running(f), n1, Running(f1)) && n1 > 0
    requires fuel > 0 && Runs(code, Running(f1), n2, c) && Lands(code, s, e, f1, res, c, base, fuel - 1, n2, |s.scopes|)
    ensures Runs(code, Running(f), n1 + n2, c) && Lands(code, s, e, f, res, c, base, fuel, n1 + n2, |s.scopes|)
  {
    hide Good, Keeps, Lands;
    LandsLater(code, s, s, e, f, f1, res, c, base, fuel - 1, fuel, n2, n1 + n2, |s.scopes|);
    RunsTrans(code, Running(f), n1, Running(f1), n2, c);
  }

  lemma CtxLoop(code: Code, s: Em, h: Em, e: Em, cont: Label, brk: Label)
    requires Ctx(code, s) && Within(h, code) && Within(e, code) && EndsWith(h, cont) && EndsWith(e, brk)
    ensures Ctx(code, PushLoop(s, cont, brk))
  {
    assert LabelLine(cont) in code by {
      assert code[|h.body| - 1] == LabelLine(cont);
    }
    assert LabelLine(brk) in code by {
      assert code[|e.body| - 1] == LabelLine(brk);
    }
  }

  // ---------------------------------------------------------------- while

  datatype WhileStates = WhileStates(h: Em, c: Emitted, bs: Em, inner: Em, e: Em)

  ghost predicate WhileSteps(s: Em, w: Stmt, x: WhileStates) {
    var condL, bodyL, endL := s.lbl + 1, s.lbl + 2, s.lbl + 3;
    && w.While? && x.h == Begin(Terminate(NewLabels(s, 3), Br(condL)), condL)
    && EmitExpr(x.h, w.cond) == Ok(x.c) && x.c.ty == I1
    && x.bs == Begin(Terminate(x.c.s, CondBr(x.c.v, bodyL, endL)), bodyL)
    && EmitBlock(PushLoop(x.bs, condL, endL), w.body) == Ok(x.inner)
    && x.e == Begin(EndBranch(PopLoop(x.inner), condL), endL) && EmitStmt(s, w) == Ok(x.e)
  }

  lemma WhileForm(s: Em, w: Stmt) returns (x: WhileStates)
    requires w.While? && EmitStmt(s, w).Ok?
    ensures WhileSteps(s, w, x)
  {
    hide EmitExpr, EmitBlock, Begin, Terminate, EndBranch, PushLoop, PopLoop;
    var condL, bodyL, endL := s.lbl + 1, s.lbl + 2, s.lbl + 3;
    var h := Begin(Terminate(NewLabels(s, 3), Br(condL)), condL);
    var c := EmitExpr(h, w.cond).value;
    var bs := Begin(Terminate(c.s, CondBr(c.v, bodyL, endL)), bodyL);
    var inner := EmitBlock(PushLoop(bs, condL, endL), w.body).value;
    x := WhileStates(h, c, bs, inner, EmitStmt(s, w).value);
  }

  ghost predicate WhileSound(s: Em, w: Stmt, x: WhileStates) {
    && Same(s, x.h) && Good(x.h, x.h) && Same(s, x.c.s) && Same(s, x.bs) && Good(x.bs, x.bs)
    && Good(PushLoop(x.bs, s.lbl + 1, s.lbl + 3), PushLoop(x.bs, s.lbl + 1, s.lbl + 3))
    && Same(PushLoop(x.bs, s.lbl + 1, s.lbl + 3), x.inner) && Same(s, x.e)
  }

  ghost predicate WhileShape(code: Code, s: Em, x: WhileStates) {
    && LoopPlaces(code, x.bs, x.inner, x.h, x.e, s.lbl + 1, s.lbl + 3)
    && Within(Terminate(NewLabels(s, 3), Br(s.lbl + 1)), code) && Within(x.c.s, code)
    && Within(Terminate(x.c.s, CondBr(x.c.v, s.lbl + 2, s.lbl + 3)), code) && Within(x.bs, code)
    && EndsWith(x.bs, s.lbl + 2) && Within(x.inner, code)
  }

  lemma WhileStays(s: Em, w: Stmt, x: WhileStates)
    requires Good(s, s) && WhileSteps(s, w, x)
    ensures WhileSound(s, w, x)
  {
    hide EmitExpr, EmitBlock, EmitStmt, Good, Pending, Begin, Terminate, EndBranch, PushLoop, PopLoop;
    var condL, bodyL, endL := s.lbl + 1, s.lbl + 2, s.lbl + 3;
    LoopHeadGood(s, s, 3);
    Refl(s, x.h);
    ExprGood(x.h, w.cond);
    SameTrans(s, x.h, x.c.s);
    PendingGrows(s, x.h, x.c.s, bodyL);
    PendingGrows(s, x.h, x.c.s, endL);
    EnterGood(s, x.c.s, CondBr(x.c.v, bodyL, endL), bodyL, endL, endL);
    Refl(s, x.bs);
    LoopBodyGood(s, x.bs, w.body, condL, endL);
    LoopGood(s, x.bs, condL, endL);
    BlockGood(PushLoop(x.bs, condL, endL), w.body);
  }

  lemma EnterBack(s: Em, t: Term, l: Label)
    ensures var b := Begin(Terminate(s, t), l);
            && s.body <= b.body && Terminate(s, t).body <= b.body && EndsWith(b, l) && SameContext(s, b)
  {
    TermBody(s, t);
    BeginEnds(Terminate(s, t), l);
    hide Begin, Terminate;
    PrefixTrans(s.body, Terminate(s, t).body, Begin(Terminate(s, t), l).body);
  }

  lemma WhilePlaces(code: Code, s: Em, w: Stmt, x: WhileStates)
    requires Good(s, s) && WhileSteps(s, w, x) && WhileSound(s, w, x) && UniqueLabels(code) && Within(x.e, code)
    ensures WhileShape(code, s, x)
  {
    hide EmitExpr, EmitBlock, EmitStmt, Good, Begin, Terminate;
    var condL, bodyL, endL := s.lbl + 1, s.lbl + 2, s.lbl + 3;
    LoopEnds(code, x.bs, x.inner, x.e, condL, endL);
    EnterBack(x.c.s, CondBr(x.c.v, bodyL, endL), bodyL);
    EnterBack(NewLabels(s, 3), Br(condL), condL);
    WithinBack(PushLoop(x.bs, condL, endL), x.inner, code);
    WithinPrefix(Terminate(x.c.s, CondBr(x.c.v, bodyL, endL)), x.bs, code);
    WithinPrefix(x.c.s, x.bs, code);
    ExprGood(x.h, w.cond);
    WithinBack(x.h, x.c.s, code);
    WithinPrefix(Terminate(NewLabels(s, 3), Br(condL)), x.h, code);
    SameFields(s, x.h);
    SameFields(s, x.bs);
    SameFields(s, x.e);
    SameFields(PushLoop(x.bs, condL, endL), x.inner);
  }

  /** The end of a loop body in the finished code. */
  lemma LoopEnds(code: Code, bs: Em, inner: Em, e: Em, cont: Label, brk: Label)
    requires e == Begin(EndBranch(PopLoop(inner), cont), brk) && Within(e, code)
    ensures EndsWith(e, brk) && Within(EndBranch(PopLoop(inner), cont), code) && Within(inner, code)
  {
    BeginEnds(EndBranch(PopLoop(inner), cont), brk);
    TermBody(PopLoop(inner), Br(cont));
    hide Begin, Terminate;
    WithinPrefix(EndBranch(PopLoop(inner), cont), e, code);
    WithinPrefix(inner, EndBranch(PopLoop(inner), cont), code);
  }

  /** What the loop lemmas need of the places. */
  lemma WhileFacts(code: Code, s: Em, w: Stmt, x: WhileStates)
    requires WhileSteps(s, w, x) && WhileSound(s, w, x) && WhileShape(code, s, x) && Ctx(code, s)
    ensures w.While? && EmitStmt(s, w) == Ok(x.e) && EmitExpr(x.h, w.cond) == Ok(x.c) && x.c.ty == I1
    ensures EmitBlock(PushLoop(x.bs, s.lbl + 1, s.lbl + 3), w.body) == Ok(x.inner)
    ensures Same(s, x.h) && Good(x.h, x.h) && Same(s, x.bs) && Good(x.bs, x.bs)
    ensures Good(PushLoop(x.bs, s.lbl + 1, s.lbl + 3), PushLoop(x.bs, s.lbl + 1, s.lbl + 3)) && Within(x.inner, code)
    ensures Ctx(code, x.h) && Ctx(code, PushLoop(x.bs, s.lbl + 1, s.lbl + 3)) && UniqueLabels(code) && Within(x.c.s, code)
    ensures LoopPlaces(code, x.bs, x.inner, x.h, x.e, s.lbl + 1, s.lbl + 3)
  {
    hide EmitExpr, EmitBlock, EmitStmt, Good, Begin, Terminate, Ctx, Within;
    CtxGood(code, s, x.h);
    CtxGood(code, s, x.bs);
    CtxLoop(code, x.bs, x.h, x.e, s.lbl + 1, s.lbl + 3);
  }

  lemma {:induction false} SimWhile(code: Code, s: Em, x: Stmt, st: State, fuel: nat, f: Frame, base: nat)
    returns (n: nat, c: Config)
    requires x.While?
    requires Good(s, s) && EmitStmt(s, x).Ok? && Sim(s, st, f, base) && Ctx(code, s)
    requires Within(EmitStmt(s, x).value, code)
    ensures Runs(code, Running(f), n, c)
    ensures Lands(code, s, EmitStmt(s, x).value, f, EvalStmt(x, st, fuel), c, base, fuel, n, |s.scopes|)
    decreases fuel, x, 2
  {
    hide EmitExpr, EmitStmt, EmitBlock, Good, Ctx, Within, Sim, Keeps, Lands, WhileSteps, WhileSound, WhileShape, EvalWhile;
    var y := WhileForm(s, x);
    WhileStays(s, x, y);
    CtxLabels(code, s);
    WhileEnd(s, x, y);
    WhilePlaces(code, s, x, y);
    var f1 := WhileEnter(code, s, x, y, st, f, base);
    n, c := SimWhileFrom(code, s, x, y, st, fuel, f1, base);
    KeepsRefl(s, f);
    KeepsSame(s, f, f, f1);
    Prepend(code, s, y.e, f, 1, f1, EvalWhile(x, st, fuel), c, base, fuel, n, |s.scopes|);
    n := n + 1;
  }

  lemma WhileEnd(s: Em, w: Stmt, x: WhileStates)
    requires WhileSteps(s, w, x)
    ensures EmitStmt(s, w) == Ok(x.e)
  {
    hide EmitExpr, EmitStmt, EmitBlock, Begin;
  }

  lemma WhileEnter(code: Code, s: Em, w: Stmt, x: WhileStates, st: State, f: Frame, base: nat) returns (f': Frame)
    requires WhileSound(s, w, x) && WhileShape(code, s, x) && Sim(s, st, f, base)
    ensures Runs(code, Running(f), 1, Running(f')) && f'.regs == f.regs && f'.slots == f.slots && Sim(x.h, st, f', base)
  {
    hide Good, Within, Terminate, Keeps, Sim;
    SimNewLabels(s, 3, st, f, base);
    SameFields(s, x.h);
    SimBr(code, NewLabels(s, 3), s.lbl + 1, x.h, st, f, base);
    RunsStep(code, Running(f));
    f' := f.(pc := |x.h.body|);
  }

  /** The condition leads into the body or out of the loop. */
  lemma WhileTest(code: Code, s: Em, w: Stmt, x: WhileStates, b: bool, st: State, f: Frame, base: nat) returns (f': Frame)
    requires WhileSound(s, w, x) && WhileShape(code, s, x) && Sim(x.c.s, st, f, base)
    requires Readable(f, x.c.v) && Read(f, x.c.v) == BoolV(b)
    ensures Runs(code, Running(f), 1, Running(f')) && f'.regs == f.regs && f'.slots == f.slots
    ensures Sim(if b then x.bs else x.e, st, f', base)
  {
    hide Good, Within, Terminate, Keeps, Sim;
    SameFields(s, x.c.s);
    SameFields(s, x.bs);
    SimCondBr(code, x.c.s, x.c.v, b, s.lbl + 2, s.lbl + 3, if b then x.bs else x.e, st, f, base);
    RunsStep(code, Running(f));
    f' := f.(pc := |(if b then x.bs else x.e).body|);
  }

  /** A `while` loop, from the start of its condition. */
  lemma {:induction false} SimWhileFrom(code: Code, s: Em, w: Stmt, x: WhileStates, st: State, fuel: nat, f: Frame, base: nat)
    returns (n: nat, c: Config)
    requires Good(s, s) && WhileSteps(s, w, x) && WhileSound(s, w, x) && WhileShape(code, s, x) && Ctx(code, s)
    requires Sim(x.h, st, f, base)
    ensures Runs(code, Running(f), n, c)
    ensures w.While? && Lands(code, s, x.e, f, EvalWhile(w, st, fuel), c, base, fuel, n, |s.scopes|)
    decreases fuel, w, 1
  {
    hide EmitExpr, EmitBlock, EmitStmt, Good, Ctx, Within, Sim, Keeps, Lands, Holds, WhileSteps, WhileSound, WhileShape;
    hide LoopPlaces, LoopRound, EvalExpr, EvalBlock;
    WhileFacts(code, s, w, x);
    n, c := SimExpr(code, x.h, w.cond, st, fuel, f, base);
    var res := EvalExpr(w.cond, st, fuel);
    KeepsRefl(s, f);
    RunsZero(code, f);
    ChainExpr(code, s, x.h, x.c, f, 0, f, res, c, base, fuel, n);
    if res.out.Yield? {
      YieldThrough(code, s, x.c, f, res, c, base, fuel, n);
      BoolHeld(x.c.s, c.f, x.c.v, res.out.v);
      var n1, f1 := n, c.f;
      var f2 := WhileTest(code, s, w, x, res.out.v.b, res.st, f1, base);
      RunsTrans(code, Running(f), n1, Running(f1), 1, Running(f2));
      KeepsSame(s, f, f1, f2);
      if res.out.v.b {
        n, c := SimWhileBody(code, s, w, x, res.st, fuel, f, n1 + 1, f2, base);
      } else {
        n, c := n1 + 1, Running(f2);
        Arrive(code, s, x.e, f, res.st, f2, base, fuel, n, |s.scopes|);
      }
    } else {
      EarlyStmt(code, s, x.c, x.e, f, res, c, base, fuel, n);
    }
  }

  /** The outcome of a loop whose body has just ended with `r`. */
  function AfterBody(r: Res, next: Res, fuel: nat): Res {
    match r.out
    case Done => if fuel == 0 then Res(Timeout, r.st) else next
    case Continued => if fuel == 0 then Res(Timeout, r.st) else next
    case Broke => Res(Done, r.st)
    case _ => r
  }

  /** A `while` loop, from the start of its body. */
  lemma {:induction false} SimWhileBody(code: Code, s: Em, w: Stmt, x: WhileStates, st: State, fuel: nat, f: Frame,
                                        n: nat, f1: Frame, base: nat)
    returns (n': nat, c: Config)
    requires Good(s, s) && WhileSteps(s, w, x) && WhileSound(s, w, x) && WhileShape(code, s, x) && Ctx(code, s)
    requires Sim(x.bs, st, f1, base) && Keeps(s, f, f1) && Runs(code, Running(f), n, Running(f1))
    ensures Runs(code, Running(f), n', c) && w.While?
    ensures var r := EvalBlock(w.body, st, fuel);
            Lands(code, s, x.e, f, AfterBody(r, if fuel == 0 then r else EvalWhile(w, r.st, fuel - 1), fuel), c, base, fuel, n', |s.scopes|)
    decreases fuel, w, 0
  {
    hide EmitExpr, EmitBlock, EmitStmt, Good, Ctx, Within, Sim, Keeps, Lands, WhileSteps, WhileSound, WhileShape;
    hide LoopPlaces, LoopRound, EvalExpr, EvalBlock, EvalWhile;
    WhileFacts(code, s, w, x);
    var pl := PushLoop(x.bs, s.lbl + 1, s.lbl + 3);
    SimLoopContext(x.bs, pl, st, f1, base);
    var m;
    m, c := SimBlock(code, pl, w.body, st, fuel, f1, base);
    var r := EvalBlock(w.body, st, fuel);
    m, c := LoopAfter(code, x.bs, x.inner, x.h, x.e, s.lbl + 1, s.lbl + 3, st, f1, r, c, base, fuel, m);
    if r.out == Done || r.out == Continued {
      RoundBack(code, s, x.bs, x.h, x.e, f, n, f1, r, c, base, fuel, m);
      n' := n + m;
      if fuel > 0 {
        var f2 := c.f;
        var m2;
        m2, c := SimWhileFrom(code, s, w, x, r.st, fuel - 1, f2, base);
        NextRound(code, s, x.e, f, n', f2, EvalWhile(w, r.st, fuel - 1), c, base, fuel, m2);
        n' := n' + m2;
      }
    } else {
      RoundOut(code, s, x.bs, x.h, x.e, f, n, f1, r, c, base, fuel, m);
      n' := n + m;
    }
  }

  // ---------------------------------------------------------------- loop

  ghost predicate LoopSteps(s: Em, body: seq<Stmt>, h: Em, inner: Em, e: Em) {
    && h == Begin(Terminate(NewLabels(s, 2), Br(s.lbl + 1)), s.lbl + 1)
    && EmitBlock(PushLoop(h, s.lbl + 1, s.lbl + 2), body) == Ok(inner)
    && e == Begin(EndBranch(PopLoop(inner), s.lbl + 1), s.lbl + 2) && EmitLoop(s, body) == Ok(e)
  }

  lemma LoopForm(s: Em, body: seq<Stmt>) returns (h: Em, inner: Em, e: Em)
    requires EmitLoop(s, body).Ok?
    ensures LoopSteps(s, body, h, inner, e)
  {
    hide EmitBlock, Begin, Terminate, EndBranch, PushLoop, PopLoop;
    h := Begin(Terminate(NewLabels(s, 2), Br(s.lbl + 1)), s.lbl + 1);
    inner := EmitBlock(PushLoop(h, s.lbl + 1, s.lbl + 2), body).value;
    e := EmitLoop(s, body).value;
  }

  lemma LoopFacts(code: Code, s: Em, body: seq<Stmt>, h: Em, inner: Em, e: Em)
    requires Good(s, s) && LoopSteps(s, body, h, inner, e) && Ctx(code, s) && Within(e, code)
    ensures EmitLoop(s, body) == Ok(e) && EmitBlock(PushLoop(h, s.lbl + 1, s.lbl + 2), body) == Ok(inner)
    ensures Same(s, h) && Good(h, h) && LoopPlaces(code, h, inner, h, e, s.lbl + 1, s.lbl + 2) && Within(inner, code)
    ensures Good(PushLoop(h, s.lbl + 1, s.lbl + 2), PushLoop(h, s.lbl + 1, s.lbl + 2))
    ensures Ctx(code, PushLoop(h, s.lbl + 1, s.lbl + 2)) && Within(Terminate(NewLabels(s, 2), Br(s.lbl + 1)), code)
    ensures UniqueLabels(code)
  {
    hide EmitBlock, Good, Begin, Terminate, Ctx, Pending;
    var pl := PushLoop(h, s.lbl + 1, s.lbl + 2);
    LoopHeadGood(s, s, 2);
    Refl(s, h);
    LoopBodyGood(s, h, body, s.lbl + 1, s.lbl + 2);
    LoopGood(s, h, s.lbl + 1, s.lbl + 2);
    BlockGood(pl, body);
    LoopEnds(code, h, inner, e, s.lbl + 1, s.lbl + 2);
    WithinBack(pl, inner, code);
    EnterBack(NewLabels(s, 2), Br(s.lbl + 1), s.lbl + 1);
    WithinPrefix(Terminate(NewLabels(s, 2), Br(s.lbl + 1)), h, code);
    SameFields(s, h);
    SameFields(s, e);
    SameFields(pl, inner);
    CtxGood(code, s, h);
    CtxLabels(code, s);
    CtxLoop(code, h, h, e, s.lbl + 1, s.lbl + 2);
  }

  lemma {:induction false} SimLoop(code: Code, s: Em, x: Stmt, st: State, fuel: nat, f: Frame, base: nat)
    returns (n: nat, c: Config)
    requires x.Loop?
    requires Good(s, s) && EmitStmt(s, x).Ok? && Sim(s, st, f, base) && Ctx(code, s)
    requires Within(EmitStmt(s, x).value, code)
    ensures Runs(code, Running(f), n, c)
    ensures Lands(code, s, EmitStmt(s, x).value, f, EvalStmt(x, st, fuel), c, base, fuel, n, |s.scopes|)
    decreases fuel, x, 2
  {
    hide EmitBlock, EmitLoop, Good, Ctx, Within, Sim, Keeps, Lands, LoopSteps, EvalLoop, Terminate, LoopPlaces;
    var body := x.body;
    var h, inner, e := LoopForm(s, body);
    LoopEnd(s, body, h, inner, e);
    LoopFacts(code, s, body, h, inner, e);
    var f1 := LoopEnter(code, s, h, inner, e, st, f, base);
    n, c := SimLoopFrom(code, s, body, h, inner, e, st, fuel, f1, base);
    KeepsRefl(s, f);
    KeepsSame(s, f, f, f1);
    Prepend(code, s, e, f, 1, f1, EvalLoop(body, st, fuel), c, base, fuel, n, |s.scopes|);
    n := n + 1;
  }

  lemma LoopEnd(s: Em, body: seq<Stmt>, h: Em, inner: Em, e: Em)
    requires LoopSteps(s, body, h, inner, e)
    ensures EmitLoop(s, body) == Ok(e)
  {
    hide EmitLoop, EmitBlock, Begin;
  }

  lemma LoopEnter(code: Code, s: Em, h: Em, inner: Em, e: Em, st: State, f: Frame, base: nat) returns (f': Frame)
    requires Sim(s, st, f, base) && Within(Terminate(NewLabels(s, 2), Br(s.lbl + 1)), code) && Same(s, h)
    requires LoopPlaces(code, h, inner, h, e, s.lbl + 1, s.lbl + 2)
    ensures Runs(code, Running(f), 1, Running(f')) && f'.regs == f.regs && f'.slots == f.slots && Sim(h, st, f', base)
  {
    hide Good, Within, Terminate, Keeps, Sim;
    SimNewLabels(s, 2, st, f, base);
    SameFields(s, h);
    SimBr(code, NewLabels(s, 2), s.lbl + 1, h, st, f, base);
    RunsStep(code, Running(f));
    f' := f.(pc := |h.body|);
  }

  /** A `loop`, from the start of its body. */
  lemma {:induction false} SimLoopFrom(code: Code, s: Em, body: seq<Stmt>, h: Em, inner: Em, e: Em, st: State, fuel: nat,
                                       f: Frame, base: nat)
    returns (n: nat, c: Config)
    requires Good(s, s) && LoopSteps(s, body, h, inner, e) && Ctx(code, s) && Within(e, code) && Sim(h, st, f, base)
    ensures Runs(code, Running(f), n, c)
    ensures Lands(code, s, e, f, EvalLoop(body, st, fuel), c, base, fuel, n, |s.scopes|)
    decreases fuel, body, 3
  {
    hide EmitBlock, EmitLoop, Good, Ctx, Within, Sim, Keeps, Lands, LoopSteps, LoopPlaces, LoopRound, EvalBlock, Terminate;
    LoopFacts(code, s, body, h, inner, e);
    var pl := PushLoop(h, s.lbl + 1, s.lbl + 2);
    SimLoopContext(h, pl, st, f, base);
    n, c := SimBlock(code, pl, body, st, fuel, f, base);
    var r := EvalBlock(body, st, fuel);
    n, c := LoopAfter(code, h, inner, h, e, s.lbl + 1, s.lbl + 2, st, f, r, c, base, fuel, n);
    KeepsRefl(s, f);
    RunsZero(code, f);
    if r.out == Done || r.out == Continued {
      RoundBack(code, s, h, h, e, f, 0, f, r, c, base, fuel, n);
      if fuel > 0 {
        var f1, n1 := c.f, n;
        n, c := SimLoopFrom(code, s, body, h, inner, e, r.st, fuel - 1, f1, base);
        NextRound(code, s, e, f, n1, f1, EvalLoop(body, r.st, fuel - 1), c, base, fuel, n);
        n := n1 + n;
      }
    } else {
      RoundOut(code, s, h, h, e, f, 0, f, r, c, base, fuel, n);
    }
  }

  // ---------------------------------------------------------------- for

  /** The states of the emitter around a `for` loop: after the stores of the bounds, at the test, after it, at the body,
      in it, after it, at the increment, after it, and at the end. */
  datatype ForStates = ForStates(s1: Em, cond: Em, t: Emitted, top: Em, b: Em, last: Em, inc: Em, step: Em, e: Em)

  ghost predicate ForHeadSteps(s: Em, inclusive: bool, lo: Operand, hi: Operand, y: ForStates) {
    && y.s1 == Instr(Instr(Fresh(s, 2), Store(lo, s.tmp + 1)), Store(hi, s.tmp + 2))
    && y.cond == Begin(Terminate(NewLabels(y.s1, 4), Br(y.s1.lbl + 1)), y.s1.lbl + 1)
    && y.t == ForTest(y.cond, inclusive, s.tmp + 1, s.tmp + 2)
    && y.top == Begin(Terminate(y.t.s, CondBr(y.t.v, y.s1.lbl + 2, y.s1.lbl + 4)), y.s1.lbl + 2)
  }

  ghost predicate ForTailSteps(s: Em, y: ForStates) {
    && y.inc == Begin(EndBranch(PopLoop(PopScope(y.last)), y.s1.lbl + 3), y.s1.lbl + 3)
    && y.step == ForStep(y.inc, s.tmp + 1)
    && y.e == Begin(Terminate(y.step, Br(y.s1.lbl + 1)), y.s1.lbl + 4)
  }

  ghost predicate ForSteps(s: Em, x: Name, inclusive: bool, lo: Operand, hi: Operand, body: seq<Stmt>, y: ForStates) {
    && ForHeadSteps(s, inclusive, lo, hi, y)
    && y.b == ForBody(y.top, x, s.tmp + 1, y.s1.lbl + 3, y.s1.lbl + 4) && EmitStmts(y.b, body) == Ok(y.last)
    && ForTailSteps(s, y)
    && EmitFor(s, x, inclusive, lo, hi, body) == Ok(y.e)
  }

  lemma ForForm(s: Em, x: Name, inclusive: bool, lo: Operand, hi: Operand, body: seq<Stmt>) returns (y: ForStates)
    requires EmitFor(s, x, inclusive, lo, hi, body).Ok?
    ensures ForSteps(s, x, inclusive, lo, hi, body, y)
  {
    hide EmitStmts, Begin, Terminate, EndBranch, PushLoop, PopLoop, Instr, ForTest, ForBody, ForStep;
    var s1 := Instr(Instr(Fresh(s, 2), Store(lo, s.tmp + 1)), Store(hi, s.tmp + 2));
    var cond := Begin(Terminate(NewLabels(s1, 4), Br(s1.lbl + 1)), s1.lbl + 1);
    var t := ForTest(cond, inclusive, s.tmp + 1, s.tmp + 2);
    var top := Begin(Terminate(t.s, CondBr(t.v, s1.lbl + 2, s1.lbl + 4)), s1.lbl + 2);
    var b := ForBody(top, x, s.tmp + 1, s1.lbl + 3, s1.lbl + 4);
    var last := EmitStmts(b, body).value;
    var inc := Begin(EndBranch(PopLoop(PopScope(last)), s1.lbl + 3), s1.lbl + 3);
    var step := ForStep(inc, s.tmp + 1);
    y := ForStates(s1, cond, t, top, b, last, inc, step, EmitFor(s, x, inclusive, lo, hi, body).value);
  }

  ghost predicate ForSound(s: Em, y: ForStates) {
    && Good(s, s) && Same(s, y.s1) && Same(s, y.cond) && Good(y.cond, y.cond) && Same(s, y.t.s)
    && Same(s, y.top) && Good(y.top, y.top) && s.tmp + 2 <= y.top.tmp
    && Same(s, y.inc) && Good(y.inc, y.inc) && Same(s, y.step) && Same(s, y.e)
  }

  /** The states in the body of the loop. */
  ghost predicate ForInner(y: ForStates) {
    var pl := PushLoop(y.top, y.s1.lbl + 3, y.s1.lbl + 4);
    && Good(pl, pl) && Good(PushScope(pl), y.b) && Good(y.b, y.b) && Good(y.b, y.last) && Good(PushScope(pl), y.last)
    && Same(pl, PopScope(y.last))
  }

  lemma ForHeadStays(s: Em, inclusive: bool, lo: Operand, hi: Operand, y: ForStates)
    requires Good(s, s) && ForHeadSteps(s, inclusive, lo, hi, y)
    ensures Same(s, y.s1) && Same(s, y.cond) && Good(y.cond, y.cond) && Same(s, y.t.s) && Same(s, y.top) && Good(y.top, y.top)
    ensures Pending(s, y.top, y.s1.lbl + 3) && Pending(s, y.top, y.s1.lbl + 4) && s.tmp + 2 <= y.top.tmp
  {
    hide Good, Pending, Begin, Terminate, Instr, ForTest;
    TwoStoresGood(s, lo, hi);
    LoopHeadGood(s, y.s1, 4);
    Refl(s, y.cond);
    ForTestGood(s, y.cond, inclusive, s.tmp + 1, s.tmp + 2);
    PendingGrows(s, y.cond, y.t.s, y.s1.lbl + 2);
    PendingGrows(s, y.cond, y.t.s, y.s1.lbl + 3);
    PendingGrows(s, y.cond, y.t.s, y.s1.lbl + 4);
    EnterGood(s, y.t.s, CondBr(y.t.v, y.s1.lbl + 2, y.s1.lbl + 4), y.s1.lbl + 2, y.s1.lbl + 3, y.s1.lbl + 4);
    Refl(s, y.top);
    ForHeadTmp(s, inclusive, lo, hi, y);
  }

  lemma ForHeadTmp(s: Em, inclusive: bool, lo: Operand, hi: Operand, y: ForStates)
    requires ForHeadSteps(s, inclusive, lo, hi, y) && Good(y.cond, y.t.s)
    ensures s.tmp + 2 <= y.top.tmp
  {
    hide Good, Begin, Terminate, Instr, ForTest;
    InstrBody(Fresh(s, 2), Store(lo, s.tmp + 1));
    InstrBody(Instr(Fresh(s, 2), Store(lo, s.tmp + 1)), Store(hi, s.tmp + 2));
    EnterBack(NewLabels(y.s1, 4), Br(y.s1.lbl + 1), y.s1.lbl + 1);
    TmpGrows(y.cond, y.t.s);
    EnterBack(y.t.s, CondBr(y.t.v, y.s1.lbl + 2, y.s1.lbl + 4), y.s1.lbl + 2);
  }

  lemma ForStays(s: Em, x: Name, inclusive: bool, lo: Operand, hi: Operand, body: seq<Stmt>, y: ForStates)
    requires Good(s, s) && ForSteps(s, x, inclusive, lo, hi, body, y)
    ensures ForSound(s, y) && ForInner(y)
  {
    hide EmitStmts, EmitFor, Good, Pending, Begin, Terminate, EndBranch, Instr, ForTest, ForBody, ForStep, ForHeadSteps;
    hide PushLoop, PopLoop, PushScope, PopScope;
    var incL, endL := y.s1.lbl + 3, y.s1.lbl + 4;
    ForHeadStays(s, inclusive, lo, hi, y);
    ForInnerStays(s, x, body, y);
    ForLeftGood(s, y);
    var left := PopLoop(PopScope(y.last));
    PendingGrows(s, y.top, left, incL);
    PendingGrows(s, y.top, left, endL);
    EndBranchGood(s, left, incL);
    PendingGrows(s, left, EndBranch(left, incL), incL);
    PendingGrows(s, left, EndBranch(left, incL), endL);
    BeginGood(s, EndBranch(left, incL), incL);
    BeginPending(s, EndBranch(left, incL), incL, endL);
    Refl(s, y.inc);
    ForStepGood(s, y.inc, s.tmp + 1);
    PendingGrows(s, y.inc, y.step, endL);
    TermGood(s, y.step, Br(y.s1.lbl + 1));
    PendingGrows(s, y.step, Terminate(y.step, Br(y.s1.lbl + 1)), endL);
    BeginGood(s, Terminate(y.step, Br(y.s1.lbl + 1)), endL);
  }

  lemma ForInnerStays(s: Em, x: Name, body: seq<Stmt>, y: ForStates)
    requires Same(s, y.top) && y.b == ForBody(y.top, x, s.tmp + 1, y.s1.lbl + 3, y.s1.lbl + 4)
    requires EmitStmts(y.b, body) == Ok(y.last)
    ensures ForInner(y)
  {
    hide EmitStmts, Good, ForBody;
    var incL, endL := y.s1.lbl + 3, y.s1.lbl + 4;
    var pl := PushLoop(y.top, incL, endL);
    LoopGood(s, y.top, incL, endL);
    ForBodyGood(s, y.top, x, s.tmp + 1, incL, endL);
    StmtsGood(y.b, body);
    GoodTrans(PushScope(pl), y.b, y.last);
    ScopeGood(pl, pl, y.last);
  }

  /** The state after the body, out of its scope and its loop. */
  lemma ForLeftGood(s: Em, y: ForStates)
    requires Same(s, y.top) && Good(y.top, y.top) && ForInner(y)
    ensures var left := PopLoop(PopScope(y.last));
            Same(s, left) && Good(y.top, left) && Good(s, left)
  {
    hide Good, PopScope;
    var incL, endL := y.s1.lbl + 3, y.s1.lbl + 4;
    PopLoopGood(s, y.top, incL, endL, PopScope(y.last));
  }

  /** How the parts of a `for` loop hang together in the finished code. */
  ghost predicate ForShape(code: Code, s: Em, lo: Operand, hi: Operand, y: ForStates) {
    && UniqueLabels(code) && y.s1 == Instr(Instr(Fresh(s, 2), Store(lo, s.tmp + 1)), Store(hi, s.tmp + 2))
    && Within(Instr(Fresh(s, 2), Store(lo, s.tmp + 1)), code) && Within(y.s1, code)
    && Within(Terminate(NewLabels(y.s1, 4), Br(y.s1.lbl + 1)), code) && EndsWith(y.cond, y.s1.lbl + 1) && Within(y.cond, code)
    && Within(y.t.s, code) && Within(Terminate(y.t.s, CondBr(y.t.v, y.s1.lbl + 2, y.s1.lbl + 4)), code)
    && EndsWith(y.top, y.s1.lbl + 2) && Within(y.top, code) && Within(y.b, code) && Within(y.last, code)
    && Within(y.inc, code) && Within(y.step, code) && Within(Terminate(y.step, Br(y.s1.lbl + 1)), code)
    && EndsWith(y.e, y.s1.lbl + 4) && Within(y.e, code)
    && LoopPlaces(code, y.top, PopScope(y.last), y.inc, y.e, y.s1.lbl + 3, y.s1.lbl + 4)
  }

  lemma ForPlaces(code: Code, s: Em, x: Name, inclusive: bool, lo: Operand, hi: Operand, body: seq<Stmt>, y: ForStates)
    requires ForSteps(s, x, inclusive, lo, hi, body, y) && ForSound(s, y) && ForInner(y)
    requires UniqueLabels(code) && Within(y.e, code)
    ensures ForShape(code, s, lo, hi, y)
  {
    hide EmitStmts, EmitFor, Good, Begin, Terminate, EndBranch, Instr, ForTest, ForBody, ForStep, PushLoop, PopLoop, PushScope, PopScope;
    hide Within, LoopPlaces, EndsWith, ForTailSteps;
    ForTailPlaces(code, s, y);
    hide ForInner;
    ForBodyPlaces(code, s, x, y);
    ForHeadPlaces(code, s, inclusive, lo, hi, y);
  }

  lemma ForTailPlaces(code: Code, s: Em, y: ForStates)
    requires ForTailSteps(s, y) && ForSound(s, y) && ForInner(y) && UniqueLabels(code) && Within(y.e, code)
    ensures EndsWith(y.e, y.s1.lbl + 4) && Within(Terminate(y.step, Br(y.s1.lbl + 1)), code) && Within(y.step, code)
    ensures Within(y.inc, code) && Within(y.last, code) && Within(y.b, code)
    ensures LoopPlaces(code, y.top, PopScope(y.last), y.inc, y.e, y.s1.lbl + 3, y.s1.lbl + 4)
  {
    hide Good, Begin, Terminate, EndBranch, ForStep, PopScope;
    var incL := y.s1.lbl + 3;
    var inner := PopScope(y.last);
    EnterBack(y.step, Br(y.s1.lbl + 1), y.s1.lbl + 4);
    WithinPrefix(Terminate(y.step, Br(y.s1.lbl + 1)), y.e, code);
    WithinPrefix(y.step, y.e, code);
    ForStepGood(s, y.inc, s.tmp + 1);
    WithinBack(y.inc, y.step, code);
    LoopEnds(code, y.top, inner, y.inc, incL, incL);
    PopBody(y.last);
    WithinPrefix(y.last, inner, code);
    WithinBack(y.b, y.last, code);
    SameFields(s, y.top);
    SameFields(s, y.inc);
    SameFields(s, y.e);
    SameFields(PushLoop(y.top, incL, y.s1.lbl + 4), inner);
  }

  lemma ForBodyPlaces(code: Code, s: Em, x: Name, y: ForStates)
    requires y.b == ForBody(y.top, x, s.tmp + 1, y.s1.lbl + 3, y.s1.lbl + 4) && Within(y.b, code) && Good(y.top, y.top)
    ensures Within(y.top, code)
  {
    hide Good, ForBody;
    ForBodyGood(y.top, y.top, x, s.tmp + 1, y.s1.lbl + 3, y.s1.lbl + 4);
    WithinBack(PushScope(PushLoop(y.top, y.s1.lbl + 3, y.s1.lbl + 4)), y.b, code);
  }

  lemma ForHeadPlaces(code: Code, s: Em, inclusive: bool, lo: Operand, hi: Operand, y: ForStates)
    requires ForHeadSteps(s, inclusive, lo, hi, y) && ForSound(s, y) && Within(y.top, code)
    ensures Within(Instr(Fresh(s, 2), Store(lo, s.tmp + 1)), code) && Within(y.s1, code)
    ensures Within(Terminate(NewLabels(y.s1, 4), Br(y.s1.lbl + 1)), code) && EndsWith(y.cond, y.s1.lbl + 1) && Within(y.cond, code)
    ensures Within(y.t.s, code) && Within(Terminate(y.t.s, CondBr(y.t.v, y.s1.lbl + 2, y.s1.lbl + 4)), code)
    ensures EndsWith(y.top, y.s1.lbl + 2)
  {
    hide Good, Begin, Terminate, ForTest, Within, EndsWith, Instr;
    var i1 := Instr(Fresh(s, 2), Store(lo, s.tmp + 1));
    EnterBack(y.t.s, CondBr(y.t.v, y.s1.lbl + 2, y.s1.lbl + 4), y.s1.lbl + 2);
    WithinPrefix(Terminate(y.t.s, CondBr(y.t.v, y.s1.lbl + 2, y.s1.lbl + 4)), y.top, code);
    WithinPrefix(y.t.s, y.top, code);
    ForTestGood(s, y.cond, inclusive, s.tmp + 1, s.tmp + 2);
    WithinBack(y.cond, y.t.s, code);
    EnterBack(NewLabels(y.s1, 4), Br(y.s1.lbl + 1), y.s1.lbl + 1);
    WithinPrefix(Terminate(NewLabels(y.s1, 4), Br(y.s1.lbl + 1)), y.cond, code);
    WithinPrefix(NewLabels(y.s1, 4), y.cond, code);
    WithinPrefix(y.s1, NewLabels(y.s1, 4), code);
    InstrBody(i1, Store(hi, s.tmp + 2));
    WithinPrefix(i1, y.s1, code);
  }

  // ---------------------------------------------------------------- the steps of a for loop

  /** The counter is `i` and the limit `hi`. */
  ghost predicate Counting(s: Em, f: Frame, i: i64, hi: i64) {
    && s.tmp + 1 in f.slots && f.slots[s.tmp + 1] == IntV(i) && s.tmp + 2 in f.slots && f.slots[s.tmp + 2] == IntV(hi)
  }

  /** The bounds are stored and the loop is entered. */
  lemma SimForEnter(code: Code, s: Em, lo: Operand, hi: Operand, y: ForStates, a: i64, b: i64, st: State, f: Frame, base: nat)
    returns (f': Frame)
    requires ForSound(s, y) && ForShape(code, s, lo, hi, y) && Sim(s, st, f, base)
    requires Readable(f, lo) && Read(f, lo) == IntV(a) && Readable(f, hi) && Read(f, hi) == IntV(b)
    ensures Runs(code, Running(f), 3, Running(f')) && Keeps(s, f, f') && Sim(y.cond, st, f', base) && Counting(s, f', a, b)
  {
    hide Good, Within, Begin, Terminate, Instr, Keeps, InScope, Rel, LoopPlaces;
    var counter, limit := s.tmp + 1, s.tmp + 2;
    FreeSlot(s, counter);
    FreeSlot(s, limit);
    var i0, i1 := Fresh(s, 2), Instr(Fresh(s, 2), Store(lo, counter));
    RelFresh(s, 2, st, f, base);
    InstrBody(i0, Store(lo, counter));
    SimStore(code, s, i0, lo, counter, st, f, base);
    var f1 := f.(pc := f.pc + 1, slots := f.slots[counter := IntV(a)]);
    RunsStep(code, Running(f));
    SimStore(code, s, i1, hi, limit, st, f1, base);
    var f2 := f1.(pc := f1.pc + 1, slots := f1.slots[limit := IntV(b)]);
    RunsStep(code, Running(f1));
    RunsTrans(code, Running(f), 1, Running(f1), 1, Running(f2));
    KeepsSelf(s, f, f1, f2);
    f' := SimForBr(code, s, y.s1, 4, y.s1.lbl + 1, y.cond, st, f2, base);
    RunsTrans(code, Running(f), 2, Running(f2), 1, Running(f'));
    KeepsSame(s, f, f2, f');
  }

  /** A branch to a label that is placed next. */
  lemma SimForBr(code: Code, s: Em, from: Em, labels: nat, l: Label, to: Em, st: State, f: Frame, base: nat) returns (f': Frame)
    requires Same(s, from) && Same(s, to) && Sim(from, st, f, base) && UniqueLabels(code)
    requires Within(Terminate(NewLabels(from, labels), Br(l)), code) && Within(to, code) && EndsWith(to, l)
    ensures Runs(code, Running(f), 1, Running(f')) && Sim(to, st, f', base) && f'.regs == f.regs && f'.slots == f.slots
  {
    hide Good, Within, Terminate, Keeps, Sim;
    SameFields(s, from);
    SameFields(s, to);
    SimNewLabels(from, labels, st, f, base);
    SimBr(code, NewLabels(from, labels), l, to, st, f, base);
    RunsStep(code, Running(f));
    f' := f.(pc := |to.body|);
  }

  /** The test of the counter against the limit. */
  lemma SimForTest(code: Code, s: Em, inclusive: bool, i: i64, hi: i64, at: Em, st: State, f: Frame, base: nat)
    returns (f': Frame)
    requires Same(s, at) && Good(at, at) && Sim(at, st, f, base) && Counting(s, f, i, hi)
    requires Within(ForTest(at, inclusive, s.tmp + 1, s.tmp + 2).s, code)
    ensures var t := ForTest(at, inclusive, s.tmp + 1, s.tmp + 2);
            && Runs(code, Running(f), 3, Running(f')) && Keeps(at, f, f') && Sim(t.s, st, f', base) && Counting(s, f', i, hi)
            && Holds(t.s, f', t.v, BoolV(if inclusive then i <= hi else i < hi), I1)
  {
    hide Good, Within, Instr, Keeps, Sim;
    var counter, limit := s.tmp + 1, s.tmp + 2;
    var a := LoadFrom(at, counter, I64);
    var b := LoadFrom(a.s, limit, I64);
    var op := if inclusive then Le else Lt;
    LoadGood(at, at, counter, I64);
    Refl(at, a.s);
    LoadGood(a.s, a.s, limit, I64);
    Refl(a.s, b.s);
    GoodTrans(at, a.s, b.s);
    var done := Instr(Fresh(b.s, 1), Arith(b.s.tmp + 1, op, a.v, b.v));
    InstrBody(Fresh(b.s, 1), Arith(b.s.tmp + 1, op, a.v, b.v));
    WithinPrefix(b.s, done, code);
    WithinBack(a.s, b.s, code);
    SimLoad(code, at, counter, I64, st, f, base);
    var f1 := SetReg(f, at.tmp + 1, IntV(i));
    RunsStep(code, Running(f));
    SimLoad(code, a.s, limit, I64, st, f1, base);
    var f2 := SetReg(f1, a.s.tmp + 1, IntV(hi));
    RunsStep(code, Running(f1));
    RunsTrans(code, Running(f), 1, Running(f1), 1, Running(f2));
    KeepsTrans(at, a.s, f, f1, f2);
    var v := BoolV(if inclusive then i <= hi else i < hi);
    SimArith(code, b.s, op, a.v, b.v, v, I1, st, f2, base);
    f' := SetReg(f2, b.s.tmp + 1, v);
    RunsStep(code, Running(f2));
    RunsTrans(code, Running(f), 2, Running(f2), 1, Running(f'));
    KeepsTrans(at, b.s, f, f2, f');
  }

  /** Where the test of the loop goes on. */
  lemma HeadTarget(code: Code, s: Em, lo: Operand, hi: Operand, y: ForStates, go: bool)
    requires ForSound(s, y) && ForShape(code, s, lo, hi, y)
    ensures var to := if go then y.top else y.e;
            && Within(to, code) && EndsWith(to, if go then y.s1.lbl + 2 else y.s1.lbl + 4)
            && to.scopes == y.t.s.scopes && to.arenas == y.t.s.arenas
    ensures UniqueLabels(code) && Within(Terminate(y.t.s, CondBr(y.t.v, y.s1.lbl + 2, y.s1.lbl + 4)), code)
  {
    hide Good, Within, Instr, LoopPlaces, Terminate, EndsWith, UniqueLabels;
    SameFields(s, y.t.s);
    SameFields(s, if go then y.top else y.e);
  }

  /** The branch into the body or out of the loop. */
  lemma SimForBranch(code: Code, s: Em, lo: Operand, hi: Operand, y: ForStates, go: bool, st: State, f: Frame, base: nat)
    returns (f': Frame)
    requires ForSound(s, y) && ForShape(code, s, lo, hi, y) && Sim(y.t.s, st, f, base)
    requires Readable(f, y.t.v) && Read(f, y.t.v) == BoolV(go)
    ensures var to := if go then y.top else y.e;
            && f' == f.(pc := |to.body|) && Runs(code, Running(f), 1, Running(f')) && Sim(to, st, f', base)
  {
    hide Good, Within, Instr, Sim, Terminate, ForSound, ForShape, Readable, Read, Step, UniqueLabels;
    HeadTarget(code, s, lo, hi, y, go);
    var to := if go then y.top else y.e;
    f' := f.(pc := |to.body|);
    SimCondBr(code, y.t.s, y.t.v, go, y.s1.lbl + 2, y.s1.lbl + 4, to, st, f, base);
    RunsStep(code, Running(f));
  }

  /** The test, and the branch into the body or out of the loop. */
  lemma SimForHead(code: Code, s: Em, inclusive: bool, lo: Operand, hi: Operand, y: ForStates, i: i64, limit: i64,
                   st: State, f: Frame, base: nat)
    returns (f': Frame)
    requires ForSound(s, y) && ForShape(code, s, lo, hi, y) && y.t == ForTest(y.cond, inclusive, s.tmp + 1, s.tmp + 2)
    requires Sim(y.cond, st, f, base) && Counting(s, f, i, limit)
    ensures Runs(code, Running(f), 4, Running(f')) && Keeps(s, f, f') && Counting(s, f', i, limit)
    ensures Sim(if (if inclusive then i <= limit else i < limit) then y.top else y.e, st, f', base)
  {
    hide Good, Within, Instr, Keeps, Sim, LoopPlaces, Terminate, ForTest, UniqueLabels, EndsWith, Runs;
    var f1 := SimForTest(code, s, inclusive, i, limit, y.cond, st, f, base);
    KeepsWeaker(s, y.cond, f, f1);
    hide ForSound, ForShape;
    f' := SimForBranch(code, s, lo, hi, y, if inclusive then i <= limit else i < limit, st, f1, base);
    RunsTrans(code, Running(f), 3, Running(f1), 1, Running(f'));
    KeepsSame(s, f, f1, f');
  }

  /** A slot is copied into another. */
  lemma SimCopy(code: Code, d: Em, counter: Slot, slot: Slot, b: Em, v: Value, f: Frame) returns (f': Frame)
    requires !d.terminated && f.pc == |d.body| && Within(b, code)
    requires b == Instr(Instr(Fresh(d, 1), Load(d.tmp + 1, counter)), Store(Reg(d.tmp + 1), slot))
    requires counter in f.slots && f.slots[counter] == v
    ensures f' == f.(pc := |b.body|, regs := f.regs[d.tmp + 1 := v], slots := f.slots[slot := v])
    ensures Runs(code, Running(f), 2, Running(f')) && !b.terminated && SameContext(Fresh(d, 1), b)
  {
    hide Instr, Within;
    var load, store := Load(d.tmp + 1, counter), Store(Reg(d.tmp + 1), slot);
    var l := Instr(Fresh(d, 1), load);
    InstrBody(Fresh(d, 1), load);
    InstrBody(l, store);
    var f1 := SetReg(f, d.tmp + 1, v);
    f' := f1.(pc := f1.pc + 1, slots := f.slots[slot := v]);
    InstrLine(code, Fresh(d, 1), load, b, f);
    RunsStep(code, Running(f));
    InstrLine(code, l, store, b, f1);
    RunsStep(code, Running(f1));
    RunsTrans(code, Running(f), 1, Running(f1), 1, Running(f'));
  }

  /** The loop variable gets the counter's value. */
  lemma SimForBody(code: Code, s: Em, x: Name, y: ForStates, i: i64, hi: i64, st: State, f: Frame, base: nat) returns (f': Frame)
    requires Good(y.top, y.top) && Sim(y.top, st, f, base) && Counting(s, f, i, hi) && Within(y.b, code)
    requires y.b == ForBody(y.top, x, s.tmp + 1, y.s1.lbl + 3, y.s1.lbl + 4)
    ensures Runs(code, Running(f), 2, Running(f'))
    ensures Sim(y.b, Push(st, map[x := IntV(i)]), f', base)
    ensures Keeps(PushScope(PushLoop(y.top, y.s1.lbl + 3, y.s1.lbl + 4)), f, f')
  {
    hide Good, SlotsOk, MatchEnv, Instr, DeclareLocal, WithLocal, Within, Runs, ArenasIn, InScope;
    var p := PushScope(PushLoop(y.top, y.s1.lbl + 3, y.s1.lbl + 4));
    GoodScopes(y.top, y.top);
    var d := DeclareLocal(p, x, I64);
    DeclareShape(p, x, I64);
    f' := SimCopy(code, d, s.tmp + 1, p.tmp + 1, y.b, IntV(i), f);
    ForBodyMatch(y.top, x, i, st, f);
    ForBodyArenas(y.top, f, d.tmp + 1, IntV(i), base);
  }

  /** The next line is an instruction that was emitted on the way to `s'`. */
  lemma InstrLine(code: Code, s: Em, i: Inst, s': Em, f: Frame)
    requires !s.terminated && f.pc == |s.body| && Instr(s, i).body <= s'.body && Within(s', code)
    ensures f.pc < |code| && code[f.pc] == InstLine(i) && |Instr(s, i).body| == |s.body| + 1
  {
    PrefixTrans(Instr(s, i).body, s'.body, code);
    NextLine(code, s, InstLine(i), f);
  }

  lemma ForBodyMatch(top: Em, x: Name, i: i64, st: State, f: Frame)
    requires MatchEnv(top.scopes, st.env, f.slots) && SlotsOk(top.scopes, top.tmp)
    ensures MatchEnv(WithLocal(top.scopes + [map[]], x, Local(top.tmp + 1, I64)), st.env + [map[x := IntV(i)]],
                     f.slots[top.tmp + 1 := IntV(i)])
  {
    hide WithLocal;
    PushMatch(top.scopes, st.env, f.slots);
    PushSlots(top.scopes, top.tmp);
    DeclareMatch(top.scopes + [map[]], top.tmp, st.env + [map[]], f.slots, x, Local(top.tmp + 1, I64), IntV(i));
    assert Declare(st.env + [map[]], x, IntV(i)) == st.env + [map[x := IntV(i)]];
  }

  lemma ForBodyArenas(s: Em, f: Frame, r: Reg, v: Value, base: nat)
    requires Good(s, s) && ArenasIn(s.arenas, f.regs, base) && r > s.tmp
    ensures ArenasIn(s.arenas, f.regs[r := v], base)
  {
    hide LabelsOk, BlocksClosed, SlotsOk, Grows;
    forall i | 0 <= i < |s.arenas|
      ensures s.arenas[i] != r
    {
      assert s.arenas[i] in s.arenas;
    }
  }

  /** The counter is increased, wrapping around after the largest integer. */
  lemma SimForStep(code: Code, s: Em, at: Em, i: i64, hi: i64, st: State, f: Frame, base: nat) returns (f': Frame)
    requires Good(s, s) && Same(s, at) && Good(at, at) && Sim(at, st, f, base) && Counting(s, f, i, hi)
    requires Within(ForStep(at, s.tmp + 1), code)
    ensures Runs(code, Running(f), 3, Running(f')) && Keeps(s, f, f') && Sim(ForStep(at, s.tmp + 1), st, f', base)
    ensures Counting(s, f', Wrap(i + 1), hi)
  {
    hide Good, Within, Instr, Keeps, Sim, InScope;
    var counter := s.tmp + 1;
    var a := LoadFrom(at, counter, I64);
    LoadGood(at, at, counter, I64);
    Refl(at, a.s);
    SameTrans(s, at, a.s);
    var add, store := Arith(a.s.tmp + 1, Add, a.v, Const(IntV(1))), Store(Reg(a.s.tmp + 1), counter);
    var sum := Instr(Fresh(a.s, 1), add);
    InstrBody(Fresh(a.s, 1), add);
    InstrBody(sum, store);
    assert ForStep(at, counter) == Instr(sum, store);
    WithinPrefix(sum, Instr(sum, store), code);
    WithinPrefix(a.s, sum, code);
    SimLoad(code, at, counter, I64, st, f, base);
    var f1 := SetReg(f, at.tmp + 1, IntV(i));
    RunsStep(code, Running(f));
    SimArith(code, a.s, Add, a.v, Const(IntV(1)), IntV(Wrap(i + 1)), I64, st, f1, base);
    var f2 := SetReg(f1, a.s.tmp + 1, IntV(Wrap(i + 1)));
    RunsStep(code, Running(f1));
    RunsTrans(code, Running(f), 1, Running(f1), 1, Running(f2));
    KeepsTrans(at, a.s, f, f1, f2);
    KeepsWeaker(s, at, f, f2);
    FreeSlot(s, counter);
    SimStore(code, s, sum, Reg(a.s.tmp + 1), counter, st, f2, base);
    f' := f2.(pc := f2.pc + 1, slots := f2.slots[counter := IntV(Wrap(i + 1))]);
    RunsStep(code, Running(f2));
    RunsTrans(code, Running(f), 2, Running(f2), 1, Running(f'));
    KeepsSelf(s, f, f2, f');
  }

  /** The counter and the limit survive a round. */
  lemma CountingKept(s: Em, top: Em, f: Frame, f': Frame, i: i64, hi: i64)
    requires Good(s, s) && Same(s, top) && Counting(s, f, i, hi) && Keeps(top, f, f') && s.tmp + 2 <= top.tmp
    ensures Counting(s, f', i, hi)
  {
    FreeSlot(s, s.tmp + 1);
    FreeSlot(s, s.tmp + 2);
    hide Good, InScope;
  }

  // ---------------------------------------------------------------- the loop

  lemma ForFacts(code: Code, s: Em, x: Name, inclusive: bool, lo: Operand, hi: Operand, body: seq<Stmt>, y: ForStates)
    requires ForSteps(s, x, inclusive, lo, hi, body, y) && ForSound(s, y) && ForInner(y) && ForShape(code, s, lo, hi, y)
    requires Ctx(code, s)
    ensures y.t == ForTest(y.cond, inclusive, s.tmp + 1, s.tmp + 2) && y.step == ForStep(y.inc, s.tmp + 1)
    ensures y.b == ForBody(y.top, x, s.tmp + 1, y.s1.lbl + 3, y.s1.lbl + 4) && EmitStmts(y.b, body) == Ok(y.last)
    ensures EmitFor(s, x, inclusive, lo, hi, body) == Ok(y.e)
    ensures Good(s, s) && Same(s, y.top) && Good(y.top, y.top) && Good(y.b, y.b) && s.tmp + 2 <= y.top.tmp
    ensures Same(s, y.inc) && Good(y.inc, y.inc) && Same(s, y.step) && Same(s, y.cond)
    ensures var pl := PushLoop(y.top, y.s1.lbl + 3, y.s1.lbl + 4);
            && Good(PushScope(pl), y.b) && Good(PushScope(pl), y.last) && |PushScope(pl).scopes| == |y.b.scopes|
            && |pl.scopes| == |y.top.scopes| == |s.scopes| && |PushScope(pl).scopes| == |pl.scopes| + 1
    ensures Within(y.b, code) && Within(y.last, code) && Within(y.step, code) && Within(y.cond, code) && UniqueLabels(code)
    ensures Within(Terminate(y.step, Br(y.s1.lbl + 1)), code) && EndsWith(y.cond, y.s1.lbl + 1)
    ensures LoopPlaces(code, y.top, PopScope(y.last), y.inc, y.e, y.s1.lbl + 3, y.s1.lbl + 4)
    ensures Ctx(code, y.b)
  {
    hide EmitStmts, EmitFor, Good, Terminate, Begin, Instr, ForTest, ForBody, ForStep, PopScope, Within, Ctx;
    var incL, endL := y.s1.lbl + 3, y.s1.lbl + 4;
    var pl := PushLoop(y.top, incL, endL);
    SameFields(s, y.top);
    SameFields(PushScope(pl), y.b);
    CtxGood(code, s, y.top);
    CtxLoop(code, y.top, y.inc, y.e, incL, endL);
    CtxPush(code, pl);
    CtxGood(code, PushScope(pl), y.b);
  }

  lemma ForTopFacts(s: Em, x: Name, inclusive: bool, lo: Operand, hi: Operand, body: seq<Stmt>, y: ForStates)
    requires ForSteps(s, x, inclusive, lo, hi, body, y) && ForSound(s, y)
    ensures y.t == ForTest(y.cond, inclusive, s.tmp + 1, s.tmp + 2)
    ensures Good(s, s) && Same(s, y.top) && s.tmp + 2 <= y.top.tmp
  {
    hide EmitStmts, EmitFor, Good, Terminate, Begin, Instr, ForTest, ForBody, ForTailSteps;
  }

  lemma ForStepFacts(code: Code, s: Em, x: Name, inclusive: bool, lo: Operand, hi: Operand, body: seq<Stmt>, y: ForStates)
    requires ForSteps(s, x, inclusive, lo, hi, body, y) && ForSound(s, y) && ForShape(code, s, lo, hi, y)
    ensures Good(s, s) && y.step == ForStep(y.inc, s.tmp + 1)
    ensures Same(s, y.inc) && Good(y.inc, y.inc) && Same(s, y.step) && Same(s, y.cond)
    ensures Within(y.step, code) && Within(y.cond, code) && UniqueLabels(code)
    ensures Within(Terminate(NewLabels(y.step, 0), Br(y.s1.lbl + 1)), code) && EndsWith(y.cond, y.s1.lbl + 1)
  {
    hide EmitStmts, EmitFor, Good, Terminate, Begin, Instr, ForTest, ForBody, ForHeadSteps, Within;
    assert NewLabels(y.step, 0) == y.step;
  }

  /** One round of the body. */
  lemma {:induction false} SimForRound(code: Code, s: Em, x: Name, inclusive: bool, lo: Operand, hi: Operand, body: seq<Stmt>,
                                       y: ForStates, i: i64, limit: i64, st: State, fuel: nat, f: Frame, base: nat)
    returns (n: nat, c: Config)
    requires ForSteps(s, x, inclusive, lo, hi, body, y) && ForSound(s, y) && ForInner(y) && ForShape(code, s, lo, hi, y)
    requires Ctx(code, s) && Sim(y.top, st, f, base) && Counting(s, f, i, limit)
    ensures Runs(code, Running(f), n, c)
    ensures LoopRound(code, y.top, y.inc, y.e, f, Pop(EvalStmts(body, Push(st, map[x := IntV(i)]), fuel)), c, base, fuel, n)
    decreases fuel, body, 2
  {
    hide EmitStmts, EmitFor, Good, Terminate, Begin, Instr, ForTest, ForBody, ForStep, PushLoop, PopScope, PushScope, Within, Ctx;
    hide ForSteps, ForSound, ForInner, ForShape, LoopPlaces, LoopRound, Lands, Keeps, Sim, EvalStmts, Push, Pop;
    ForFacts(code, s, x, inclusive, lo, hi, body, y);
    var incL, endL := y.s1.lbl + 3, y.s1.lbl + 4;
    var pl := PushLoop(y.top, incL, endL);
    var f1 := SimForBody(code, s, x, y, i, limit, st, f, base);
    var st1 := Push(st, map[x := IntV(i)]);
    n, c := SimStmts(code, y.b, body, st1, fuel, f1, base);
    var r := EvalStmts(body, st1, fuel);
    ChainStmts(code, PushScope(pl), y.b, y.last, f, 2, f1, r, c, base, fuel, n);
    n := 2 + n;
    LandsPop(code, pl, y.last, f, r, c, base, fuel, n);
    PopOut(r);
    n, c := LoopAfter(code, y.top, PopScope(y.last), y.inc, y.e, incL, endL, st, f, Pop(r), c, base, fuel, n);
  }

  /** A `for` loop, from the start of its test. */
  lemma {:induction false} SimForFrom(code: Code, s: Em, x: Name, inclusive: bool, lo: Operand, hi: Operand, body: seq<Stmt>,
                                      y: ForStates, i: i64, limit: i64, st: State, fuel: nat, f: Frame, base: nat)
    returns (n: nat, c: Config)
    requires ForSteps(s, x, inclusive, lo, hi, body, y) && ForSound(s, y) && ForInner(y) && ForShape(code, s, lo, hi, y)
    requires Ctx(code, s) && Sim(y.cond, st, f, base) && Counting(s, f, i, limit)
    ensures Runs(code, Running(f), n, c)
    ensures Lands(code, s, y.e, f, EvalFor(x, inclusive, i, limit, body, st, fuel), c, base, fuel, n, |s.scopes|)
    decreases fuel, body, 3
  {
    hide EmitStmts, EmitFor, Good, Terminate, Begin, Instr, ForTest, ForBody, ForStep, PushLoop, PopScope, PushScope, Within, Ctx;
    hide ForSteps, ForSound, ForInner, ForShape, LoopPlaces, LoopRound, Lands, Keeps, Sim, EvalStmts, Push, Pop, Counting, NextFor;
    hide Runs;
    ForTopFacts(s, x, inclusive, lo, hi, body, y);
    var f1 := SimForHead(code, s, inclusive, lo, hi, y, i, limit, st, f, base);
    if if inclusive then i <= limit else i < limit {
      n, c := SimForRound(code, s, x, inclusive, lo, hi, body, y, i, limit, st, fuel, f1, base);
      var r := Pop(EvalStmts(body, Push(st, map[x := IntV(i)]), fuel));
      if r.out == Done || r.out == Continued {
        RoundBack(code, s, y.top, y.inc, y.e, f, 4, f1, r, c, base, fuel, n);
        RoundKeeps(code, y.top, y.inc, y.e, f1, r, c, base, fuel, n);
        CountingKept(s, y.top, f1, c.f, i, limit);
        n, c := SimForNext(code, s, x, inclusive, lo, hi, body, y, i, limit, r.st, fuel, f, 4 + n, c.f, base);
      } else {
        RoundOut(code, s, y.top, y.inc, y.e, f, 4, f1, r, c, base, fuel, n);
        n := 4 + n;
      }
    } else {
      n, c := 4, Running(f1);
      Arrive(code, s, y.e, f, st, f1, base, fuel, n, |s.scopes|);
    }
  }

  lemma RoundKeeps(code: Code, bs: Em, h: Em, e: Em, f: Frame, r: Res, c: Config, base: nat, fuel: nat, n: nat)
    requires LoopRound(code, bs, h, e, f, r, c, base, fuel, n) && (r.out == Done || r.out == Continued)
    ensures c.Running? && Keeps(bs, f, c.f)
  {
    hide Sim, Keeps;
  }

  /** The increment, and the rounds after it. */
  lemma {:induction false} SimForNext(code: Code, s: Em, x: Name, inclusive: bool, lo: Operand, hi: Operand, body: seq<Stmt>,
                                      y: ForStates, i: i64, limit: i64, st: State, fuel: nat, f: Frame, n: nat, f1: Frame, base: nat)
    returns (n': nat, c: Config)
    requires ForSteps(s, x, inclusive, lo, hi, body, y) && ForSound(s, y) && ForInner(y) && ForShape(code, s, lo, hi, y)
    requires Ctx(code, s) && Sim(y.inc, st, f1, base) && Counting(s, f1, i, limit)
    requires Keeps(s, f, f1) && Runs(code, Running(f), n, Running(f1)) && n > 0
    ensures Runs(code, Running(f), n', c)
    ensures Lands(code, s, y.e, f, NextFor(x, inclusive, i, limit, body, st, fuel), c, base, fuel, n', |s.scopes|)
    decreases fuel, body, 2
  {
    hide EmitStmts, EmitFor, Good, Terminate, Begin, Instr, ForTest, ForBody, ForStep, PushLoop, PopScope, PushScope, Within, Ctx;
    hide ForSteps, ForSound, ForInner, ForShape, LoopPlaces, LoopRound, Keeps, Sim, EvalFor, Counting;
    hide Runs, NewLabels;
    ForStepFacts(code, s, x, inclusive, lo, hi, body, y);
    n', c := n, Running(f1);
    var t, next := LeaveFor(st, i), Wrap(i + 1);
    SimTop(y.inc, st, t, f1, base);
    hide Wrap, LeaveFor;
    if fuel == 0 {
      SimLog(y.inc, t, f1, base);
    } else {
      hide Lands;
      var f2 := SimForStep(code, s, y.inc, i, limit, t, f1, base);
      var f3 := SimForBr(code, s, y.step, 0, y.s1.lbl + 1, y.cond, t, f2, base);
      RunsTrans(code, Running(f), n, Running(f1), 3, Running(f2));
      RunsTrans(code, Running(f), n + 3, Running(f2), 1, Running(f3));
      KeepsSelf(s, f, f1, f2);
      KeepsSame(s, f, f2, f3);
      CountingSame(s, f2, f3, next, limit);
      n', c := SimForFrom(code, s, x, inclusive, lo, hi, body, y, next, limit, t, fuel - 1, f3, base);
      NextRound(code, s, y.e, f, n + 4, f3, EvalFor(x, inclusive, next, limit, body, t, fuel - 1), c, base, fuel, n');
      n' := n + 4 + n';
    }
  }

  lemma CountingSame(s: Em, f: Frame, f': Frame, i: i64, hi: i64)
    requires Counting(s, f, i, hi) && f'.slots == f.slots
    ensures Counting(s, f', i, hi)
  {
  }

  /** What has been entered and passed does not matter to the machine. */
  lemma SimTop(s: Em, st: State, t: State, f: Frame, base: nat)
    requires Sim(s, st, f, base) && t == st.(top := t.top)
    ensures Sim(s, t, f, base) && st.wraps
  {
    hide MatchEnv, ArenasIn;
  }

  lemma SimLog(s: Em, st: State, f: Frame, base: nat)
    requires Sim(s, st, f, base)
    ensures f.log == st.log
  {
  }

  lemma {:induction false} SimFor(code: Code, s: Em, x: Name, inclusive: bool, lo: Operand, hi: Operand, body: seq<Stmt>,
                                  i: i64, limit: i64, st: State, fuel: nat, f: Frame, base: nat)
    returns (n: nat, c: Config)
    requires Good(s, s) && EmitFor(s, x, inclusive, lo, hi, body).Ok? && Sim(s, st, f, base) && Ctx(code, s)
    requires Within(EmitFor(s, x, inclusive, lo, hi, body).value, code)
    requires Readable(f, lo) && Read(f, lo) == IntV(i) && Readable(f, hi) && Read(f, hi) == IntV(limit)
    ensures Runs(code, Running(f), n, c)
    ensures Lands(code, s, EmitFor(s, x, inclusive, lo, hi, body).value, f, EvalFor(x, inclusive, i, limit, body, st, fuel), c,
                  base, fuel, n, |s.scopes|)
    decreases fuel, body, 4
  {
    hide EmitStmts, EmitFor, EvalFor, Good, Terminate, Begin, Instr, ForTest, ForBody, ForStep, Within, Ctx;
    hide ForSteps, ForSound, ForInner, ForShape, LoopPlaces, Lands, Keeps, Sim, Counting;
    var y := ForForm(s, x, inclusive, lo, hi, body);
    ForStays(s, x, inclusive, lo, hi, body, y);
    CtxLabels(code, s);
    ForEnd(s, x, inclusive, lo, hi, body, y);
    ForPlaces(code, s, x, inclusive, lo, hi, body, y);
    var f1 := SimForEnter(code, s, lo, hi, y, i, limit, st, f, base);
    n, c := SimForFrom(code, s, x, inclusive, lo, hi, body, y, i, limit, st, fuel, f1, base);
    Prepend(code, s, y.e, f, 3, f1, EvalFor(x, inclusive, i, limit, body, st, fuel), c, base, fuel, n, |s.scopes|);
    n := 3 + n;
  }

  lemma ForEnd(s: Em, x: Name, inclusive: bool, lo: Operand, hi: Operand, body: seq<Stmt>, y: ForStates)
    requires ForSteps(s, x, inclusive, lo, hi, body, y)
    ensures EmitFor(s, x, inclusive, lo, hi, body) == Ok(y.e)
  {
    hide EmitFor, ForHeadSteps, ForTailSteps, ForBody, EmitStmts;
  }

  ghost predicate ForStmtSteps(s: Em, x: Stmt, l: Emitted, h: Emitted) {
    && x.For? && EmitExpr(s, x.lo) == Ok(l) && l.ty == I64 && EmitExpr(l.s, x.hi) == Ok(h) && h.ty == I64
    && EmitStmt(s, x) == EmitFor(h.s, x.name, x.inclusive, l.v, h.v, x.body)
  }

  lemma ForStmtForm(s: Em, x: Stmt) returns (l: Emitted, h: Emitted)
    requires x.For? && EmitStmt(s, x).Ok?
    ensures ForStmtSteps(s, x, l, h)
  {
    hide EmitExpr, EmitFor;
    l := EmitExpr(s, x.lo).value;
    h := EmitExpr(l.s, x.hi).value;
  }

  lemma ForStmtSound(code: Code, s: Em, x: Stmt, l: Emitted, h: Emitted)
    requires Good(s, s) && EmitStmt(s, x).Ok? && ForStmtSteps(s, x, l, h) && Within(EmitStmt(s, x).value, code) && Ctx(code, s)
    ensures EmitFor(h.s, x.name, x.inclusive, l.v, h.v, x.body) == EmitStmt(s, x)
    ensures Same(s, l.s) && Good(l.s, l.s) && Same(l.s, h.s) && Good(h.s, h.s) && Same(s, h.s) && l.s.tmp <= h.s.tmp
    ensures Within(l.s, code) && Within(h.s, code) && Ctx(code, l.s) && Ctx(code, h.s)
  {
    hide EmitExpr, EmitFor, EmitStmt, Good, Within, Ctx;
    ExprGood(s, x.lo);
    Refl(s, l.s);
    ExprGood(l.s, x.hi);
    Refl(l.s, h.s);
    SameTrans(s, l.s, h.s);
    TmpGrows(l.s, h.s);
    ForGood(h.s, x.name, x.inclusive, l.v, h.v, x.body);
    WithinBack(h.s, EmitStmt(s, x).value, code);
    WithinBack(l.s, h.s, code);
    CtxGood(code, s, l.s);
    CtxGood(code, l.s, h.s);
  }

  lemma {:induction false} SimForStmt(code: Code, s: Em, x: Stmt, st: State, fuel: nat, f: Frame, base: nat)
    returns (n: nat, c: Config)
    requires x.For?
    requires Good(s, s) && EmitStmt(s, x).Ok? && Sim(s, st, f, base) && Ctx(code, s)
    requires Within(EmitStmt(s, x).value, code)
    ensures Runs(code, Running(f), n, c)
    ensures Lands(code, s, EmitStmt(s, x).value, f, EvalStmt(x, st, fuel), c, base, fuel, n, |s.scopes|)
    decreases fuel, x, 2
  {
    hide EmitExpr, EmitFor, EmitStmt, EvalExpr, EvalFor, Good, Within, Ctx, Sim, Keeps, Lands, Holds;
    var l, h := ForStmtForm(s, x);
    var s' := EmitStmt(s, x).value;
    ForStmtSound(code, s, x, l, h);
    hide EmitStmt;
    n, c := SimExpr(code, s, x.lo, st, fuel, f, base);
    var res1 := EvalExpr(x.lo, st, fuel);
    if res1.out.Yield? {
      YieldThrough(code, s, l, f, res1, c, base, fuel, n);
      var n1, f1 := n, c.f;
      var n2;
      n2, c := SimExpr(code, l.s, x.hi, res1.st, fuel, f1, base);
      var res2 := EvalExpr(x.hi, res1.st, fuel);
      if res2.out.Yield? {
        YieldThrough(code, l.s, h, f1, res2, c, base, fuel, n2);
        var f2 := c.f;
        HoldsKept(l.s, h.s, f1, f2, l.v, res1.out.v, l.ty);
        IntHeld(h.s, f2, l.v, res1.out.v);
        IntHeld(h.s, f2, h.v, res2.out.v);
        var n3;
        var st3 := EnterFor(res2.st, x.inclusive, res2.out.v.n);
        SimTop(h.s, res2.st, st3, f2, base);
        n3, c := SimFor(code, h.s, x.name, x.inclusive, l.v, h.v, x.body, res1.out.v.n, res2.out.v.n, st3, fuel, f2, base);
        Chain(code, l.s, h.s, s', f1, n2, f2, EvalStmt(x, st, fuel), c, base, fuel, n3, |s.scopes|);
        n2 := n2 + n3;
      } else {
        EarlyStmt(code, l.s, h, s', f1, res2, c, base, fuel, n2);
      }
      Chain(code, s, l.s, s', f, n1, f1, EvalStmt(x, st, fuel), c, base, fuel, n2, |s.scopes|);
      n := n1 + n2;
    } else {
      EarlyStmt(code, s, l, s', f, res1, c, base, fuel, n);
    }
  }
}
