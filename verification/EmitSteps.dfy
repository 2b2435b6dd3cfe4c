/** The emitted code of variables, scopes, operators, arenas and printing, run to its end. */
module EmitSteps {
  import opened Wrappers
  import opened UbelSyntax
  import opened UbelSource
  import opened BlockCode
  import opened EmitSpec
  import opened EmitStatic
  import opened EmitKeeps
  import opened EmitSim

  // ---------------------------------------------------------------- variables

  lemma MatchPrefix(scopes: Scopes, env: seq<Scope>, slots: map<Slot, Value>, k: nat)
    requires MatchEnv(scopes, env, slots) && k <= |scopes|
    ensures MatchEnv(scopes[..k], env[..k], slots)
  {
    forall j: nat, x | IsLocal(scopes[..k], j, x)
      ensures IsLocal(scopes, j, x) && SlotOf(scopes[..k], j, x) == SlotOf(scopes, j, x)
    {
    }
    forall j: nat, x | j < |env[..k]| && x in env[..k][j]
      ensures IsLocal(scopes[..k], j, x)
    {
      assert x in env[j];
    }
  }

  /** Where the innermost local of a name is. */
  lemma {:induction false} FoundIndex(scopes: Scopes, x: Name) returns (k: nat)
    requires FindLocal(scopes, x).Some?
    ensures IsLocal(scopes, k, x) && FindLocal(scopes, x).value == scopes[k][x]
    ensures forall j: nat :: k < j ==> !IsLocal(scopes, j, x)
    decreases |scopes|
  {
    k := |scopes| - 1;
    if x !in scopes[k] {
      k := FoundIndex(scopes[..k], x);
      assert forall j: nat :: j < |scopes| - 1 ==> (IsLocal(scopes, j, x) <==> IsLocal(scopes[..|scopes| - 1], j, x));
    }
  }

  /** What the program finds under a name bound in scope `k` and in no inner one. */
  lemma {:induction false} LookupAt(env: seq<Scope>, x: Name, k: nat)
    requires k < |env| && x in env[k] && forall j :: k < j < |env| ==> x !in env[j]
    ensures Bound(env, x) && Lookup(env, x) == env[k][x]
    decreases |env|
  {
    if k < |env| - 1 {
      LookupAt(env[..|env| - 1], x, k);
    }
  }

  lemma {:induction false} UpdateAt(env: seq<Scope>, x: Name, v: Value, k: nat)
    requires k < |env| && x in env[k] && forall j :: k < j < |env| ==> x !in env[j]
    ensures Bound(env, x) && Update(env, x, v) == env[k := env[k][x := v]]
    decreases |env|
  {
    if k < |env| - 1 {
      UpdateAt(env[..|env| - 1], x, v, k);
    }
  }

  lemma FoundAt(scopes: Scopes, env: seq<Scope>, slots: map<Slot, Value>, x: Name) returns (k: nat)
    requires MatchEnv(scopes, env, slots) && FindLocal(scopes, x).Some?
    ensures IsLocal(scopes, k, x) && FindLocal(scopes, x).value == scopes[k][x]
    ensures k < |env| && x in env[k] && Bound(env, x) && Lookup(env, x) == env[k][x]
    ensures forall v :: Update(env, x, v) == env[k := env[k][x := v]]
  {
    k := FoundIndex(scopes, x);
    LookupAt(env, x, k);
    forall v
      ensures Update(env, x, v) == env[k := env[k][x := v]]
    {
      UpdateAt(env, x, v, k);
    }
  }

  lemma UpdateMatch(scopes: Scopes, tmp: nat, env: seq<Scope>, slots: map<Slot, Value>, k: nat, x: Name, v: Value)
    requires MatchEnv(scopes, env, slots) && SlotsOk(scopes, tmp) && IsLocal(scopes, k, x)
    requires HasType(v, scopes[k][x].ty)
    ensures MatchEnv(scopes, env[k := env[k][x := v]], slots[SlotOf(scopes, k, x) := v])
  {
    var env' := env[k := env[k][x := v]];
    forall j: nat, y | IsLocal(scopes, j, y)
      ensures y in env'[j] && (if j == k && y == x then env'[j][y] == v else env'[j][y] == env[j][y])
    {
      assert y in env[j];
    }
    forall j: nat, y | j < |env'| && y in env'[j]
      ensures IsLocal(scopes, j, y)
    {
      if j == k && y == x {
      } else {
        assert y in env[j];
      }
    }
  }

  lemma DeclareMatch(scopes: Scopes, tmp: nat, env: seq<Scope>, slots: map<Slot, Value>, x: Name, l: Local, v: Value)
    requires MatchEnv(scopes, env, slots) && SlotsOk(scopes, tmp) && |scopes| > 0
    requires l.slot > tmp && HasType(v, l.ty)
    ensures MatchEnv(WithLocal(scopes, x, l), Declare(env, x, v), slots[l.slot := v])
  {
    hide WithLocal;
    var env', last := Declare(env, x, v), |scopes| - 1;
    forall j: nat, y
      ensures var more := WithLocal(scopes, x, l);
              && (IsLocal(more, j, y) <==> IsLocal(scopes, j, y) || (j == last && y == x))
              && (IsLocal(more, j, y) ==> if j == last && y == x then more[j][y] == l else more[j][y] == scopes[j][y])
    {
      WithLocalAt(scopes, x, l, j, y);
    }
    WithLocalLength(scopes, x, l);
    forall j: nat, y | j < |env| && (j != last || y != x)
      ensures y in env'[j] <==> y in env[j]
      ensures y in env[j] ==> env'[j][y] == env[j][y]
    {
    }
  }

  lemma WithLocalLength(scopes: Scopes, x: Name, l: Local)
    requires |scopes| > 0
    ensures |WithLocal(scopes, x, l)| == |scopes|
  {
  }

  lemma PushMatch(scopes: Scopes, env: seq<Scope>, slots: map<Slot, Value>)
    requires MatchEnv(scopes, env, slots)
    ensures MatchEnv(scopes + [map[]], env + [map[]], slots)
  {
    forall j: nat, x | IsLocal(scopes + [map[]], j, x)
      ensures IsLocal(scopes, j, x) && SlotOf(scopes + [map[]], j, x) == SlotOf(scopes, j, x)
    {
    }
    forall j: nat, x | j < |env + [map[]]| && x in (env + [map[]])[j]
      ensures IsLocal(scopes, j, x)
    {
      assert x in env[j];
    }
  }


  lemma SimVar(code: Code, s: Em, x: Name, st: State, fuel: nat, f: Frame, base: nat) returns (n: nat, c: Config)
    requires Good(s, s) && Sim(s, st, f, base) && EmitExpr(s, Var(x)).Ok?
    requires Within(EmitExpr(s, Var(x)).value.s, code)
    ensures Runs(code, Running(f), n, c)
    ensures LandsExpr(code, s, EmitExpr(s, Var(x)).value, f, EvalExpr(Var(x), st, fuel), c, base, fuel, n)
  {
    var k := FoundAt(s.scopes, st.env, f.slots, x);
    hide Good, Within, Instr;
    var l := s.scopes[k][x];
    SimLoad(code, s, l.slot, l.ty, st, f, base);
    RunsStep(code, Running(f));
    n, c := 1, Step(code, Running(f));
  }

  lemma AssignMatch(s: Em, x: Name, v: Value, st: State, f: Frame)
    requires Good(s, s) && MatchEnv(s.scopes, st.env, f.slots) && FindLocal(s.scopes, x).Some?
    requires HasType(v, FindLocal(s.scopes, x).value.ty)
    ensures Bound(st.env, x)
    ensures MatchEnv(s.scopes, Update(st.env, x, v), f.slots[FindLocal(s.scopes, x).value.slot := v])
    ensures InScope(s.scopes, FindLocal(s.scopes, x).value.slot)
  {
    GoodScopes(s, s);
    var k := FoundAt(s.scopes, st.env, f.slots, x);
    UpdateMatch(s.scopes, s.tmp, st.env, f.slots, k, x, v);
    assert SlotOf(s.scopes, k, x) == FindLocal(s.scopes, x).value.slot;
  }

  /** A store to the variable that `x` denotes. */
  lemma SimAssign(code: Code, s: Em, x: Name, src: Operand, st: State, f: Frame, base: nat)
    requires Good(s, s) && Sim(s, st, f, base) && FindLocal(s.scopes, x).Some?
    requires Readable(f, src) && HasType(Read(f, src), FindLocal(s.scopes, x).value.ty)
    requires Within(Instr(s, Store(src, FindLocal(s.scopes, x).value.slot)), code)
    ensures var s', slot := Instr(s, Store(src, FindLocal(s.scopes, x).value.slot)), FindLocal(s.scopes, x).value.slot;
            var f' := f.(pc := f.pc + 1, slots := f.slots[slot := Read(f, src)]);
            && Bound(st.env, x) && Step(code, Running(f)) == Running(f')
            && Sim(s', st.(env := Update(st.env, x, Read(f, src))), f', base) && Keeps(s, f, f')
  {
    hide Good, MatchEnv, Update, InScope, FindLocal, Bound;
    var slot := FindLocal(s.scopes, x).value.slot;
    NextLine(code, s, InstLine(Store(src, slot)), f);
    AssignMatch(s, x, Read(f, src), st, f);
  }

  /** The declaration of a local and the store of its first value. */
  lemma SimDeclare(code: Code, s: Em, x: Name, src: Operand, ty: Ty, st: State, f: Frame, base: nat)
    requires Good(s, s) && Sim(s, st, f, base)
    requires Readable(f, src) && HasType(Read(f, src), ty)
    requires Within(Instr(DeclareLocal(s, x, ty), Store(src, s.tmp + 1)), code)
    ensures var s' := Instr(DeclareLocal(s, x, ty), Store(src, s.tmp + 1));
            var f' := f.(pc := f.pc + 1, slots := f.slots[s.tmp + 1 := Read(f, src)]);
            && |st.env| > 0 && Step(code, Running(f)) == Running(f')
            && Sim(s', st.(env := Declare(st.env, x, Read(f, src))), f', base) && Keeps(s, f, f')
  {
    GoodScopes(s, s);
    hide Good, Begin, InScope;
    DeclareShape(s, x, ty);
    DeclareMatch(s.scopes, s.tmp, st.env, f.slots, x, Local(s.tmp + 1, ty), Read(f, src));
    hide MatchEnv, DeclareLocal, WithLocal, SlotsOk, Declare;
    var d := DeclareLocal(s, x, ty);
    NextLine(code, d, InstLine(Store(src, s.tmp + 1)), f);
  }

  // ---------------------------------------------------------------- operators

  lemma SimUnary(code: Code, v: Emitted, op: UnaryOp, st: State, fuel: nat, f: Frame, base: nat, a: Value)
    returns (n: nat, c: Config)
    requires Good(v.s, v.s) && Sim(v.s, st, f, base) && EmitUnary(v, op).Ok? && Holds(v.s, f, v.v, a, v.ty)
    requires Within(EmitUnary(v, op).value.s, code)
    ensures Runs(code, Running(f), n, c)
    ensures LandsExpr(code, v.s, EmitUnary(v, op).value, f, OfOp(OperateUnary(op, a), st), c, base, fuel, n)
  {
    hide Good, Within, Instr, Sim, Keeps, Operate, OperateUnary;
    UnaryAsBinary(op, a);
    match op {
      case Neg =>
        SimArith(code, v.s, Sub, ZERO, v.v, IntV(Wrap(0 - a.n)), I64, st, f, base);
      case BitNot =>
        SimArith(code, v.s, BitXor, v.v, Const(IntV(-1)), IntV(-1 - a.n), I64, st, f, base);
      case Not =>
        SimArith(code, v.s, BitXor, v.v, Const(BoolV(true)), BoolV(!a.b), I1, st, f, base);
    }
    RunsStep(code, Running(f));
    n, c := 1, Step(code, Running(f));
  }

  lemma UnaryAsBinary(op: UnaryOp, a: Value)
    ensures op == Neg && a.IntV? ==>
              OperateUnary(op, a) == Produces(IntV(Wrap(0 - a.n))) && Operate(Sub, IntV(0), a) == OperateUnary(op, a)
    ensures op == BitNot && a.IntV? ==>
              OperateUnary(op, a) == Produces(IntV(-1 - a.n)) && Operate(BitXor, a, IntV(-1)) == OperateUnary(op, a)
    ensures op == Not && a.BoolV? ==>
              OperateUnary(op, a) == Produces(BoolV(!a.b)) && Operate(BitXor, a, BoolV(true)) == OperateUnary(op, a)
  {
    if a.IntV? {
      BitNotIsXor(a.n);
    }
  }

  lemma SimBinop(code: Code, s: Em, op: BinOp, l: Operand, lty: Ty, r: Operand, rty: Ty,
                 st: State, fuel: nat, f: Frame, base: nat, a: Value, b: Value)
    returns (n: nat, c: Config)
    requires Good(s, s) && Sim(s, st, f, base) && EmitBinop(s, op, l, lty, r, rty).Ok? && UniqueLabels(code)
    requires Holds(s, f, l, a, lty) && Holds(s, f, r, b, rty)
    requires Within(EmitBinop(s, op, l, lty, r, rty).value.s, code)
    ensures Runs(code, Running(f), n, c)
    ensures LandsExpr(code, s, EmitBinop(s, op, l, lty, r, rty).value, f, OfOp(Operate(op, a, b), st), c, base, fuel, n)
  {
    hide Good, Within, Instr, Sim, Keeps;
    if op == Div || op == Rem {
      n, c := SimDivision(code, s, op, l, r, st, fuel, f, base, a.n, b.n);
    } else {
      hide EmitDivision;
      match Operate(op, a, b) {
        case Produces(v) =>
          SimArith(code, s, op, l, r, v, EmitBinop(s, op, l, lty, r, rty).value.ty, st, f, base);
          RunsStep(code, Running(f));
          n, c := 1, Step(code, Running(f));
        case Undefined =>
          n, c := 0, Running(f);
      }
    }
  }

  /** The guarded division: it traps on zero, and otherwise divides. */
  lemma SimDivision(code: Code, s: Em, op: BinOp, l: Operand, r: Operand,
                    st: State, fuel: nat, f: Frame, base: nat, a: i64, b: i64)
    returns (n: nat, c: Config)
    requires op == Div || op == Rem
    requires Good(s, s) && Sim(s, st, f, base) && UniqueLabels(code)
    requires Holds(s, f, l, IntV(a), I64) && Holds(s, f, r, IntV(b), I64)
    requires Within(EmitDivision(Fresh(s, 1), op, l, r).s, code)
    ensures Runs(code, Running(f), n, c)
    ensures LandsExpr(code, s, EmitDivision(Fresh(s, 1), op, l, r), f, OfOp(Operate(op, IntV(a), IntV(b)), st), c, base, fuel, n)
  {
    hide Good, Within, Instr, Keeps, DivisionGuard, Rel, Operate;
    var s1 := Fresh(s, 1);
    var guarded := DivisionGuard(s1, r);
    DivisionParts(code, s, op, l, r);
    RelFresh(s, 1, st, f, base);
    DivisionOutcome(op, a, b);
    var f1;
    n, c, f1 := SimGuard(code, s1, r, st, f, base, b);
    if b != 0 && Operate(op, IntV(a), IntV(b)).Produces? {
      var v := Operate(op, IntV(a), IntV(b)).v;
      KeepsFresh(s, 1, f, f1);
      n, c := SimQuotient(code, s, guarded, op, l, r, st, f, f1, base, IntV(a), IntV(b), v, n);
    }
  }

  lemma DivisionOutcome(op: BinOp, a: i64, b: i64)
    requires op == Div || op == Rem
    ensures var r := Operate(op, IntV(a), IntV(b));
            && (b == 0 <==> r == DivisionByZero) && (b != 0 ==> r == Undefined || (r.Produces? && r.v.IntV?))
  {
  }

  lemma DivisionParts(code: Code, s: Em, op: BinOp, l: Operand, r: Operand)
    requires Good(s, s) && Within(EmitDivision(Fresh(s, 1), op, l, r).s, code)
    ensures var s1 := Fresh(s, 1);
            var guarded := DivisionGuard(s1, r);
            && Good(s, s1) && Good(s1, s1) && Good(s1, guarded) && Within(guarded, code) && guarded.scopes == s.scopes
            && guarded.arenas == s.arenas && !guarded.terminated && s.tmp < Instr(guarded, Arith(s1.tmp, op, l, r)).tmp
  {
    hide Good, Within, Instr, DivisionGuard;
    var s1 := Fresh(s, 1);
    var guarded := DivisionGuard(s1, r);
    FreshGood(s, s, 1);
    Refl(s, s1);
    GuardGood(s1, s1, r);
    SameFields(s1, guarded);
    TmpGrows(s1, guarded);
    Refl(s1, guarded);
    InstrGood(guarded, guarded, Arith(s1.tmp, op, l, r));
    WithinBack(guarded, EmitDivision(s1, op, l, r).s, code);
    GuardWithin(code, s1, r);
  }

  /** The block of the division trap, and the label after it. */
  function GuardBad(s: Em, r: Operand): Em {
    var i := GuardTest(s, r);
    Begin(Terminate(NewLabels(i, 2), CondBr(Reg(s.tmp + 1), i.lbl + 1, i.lbl + 2)), i.lbl + 1)
  }

  function GuardTest(s: Em, r: Operand): Em {
    Instr(Fresh(s, 1), Arith(s.tmp + 1, Eq, r, ZERO))
  }

  function GuardOk(s: Em, r: Operand): Label {
    GuardTest(s, r).lbl + 2
  }

  lemma GuardParts(s: Em, r: Operand)
    ensures DivisionGuard(s, r) ==
            Begin(Terminate(Instr(GuardBad(s, r), CallTrap(DivZero)), Unreachable), GuardOk(s, r))
  {
    hide Begin, Terminate, Instr;
  }

  /** The division itself, after the test. */
  lemma SimQuotient(code: Code, s: Em, g: Em, op: BinOp, l: Operand, r: Operand, st: State, f: Frame, f1: Frame,
                    base: nat, a: Value, b: Value, v: Value, n: nat) returns (n': nat, c: Config)
    requires Good(s, s) && Sim(g, st, f1, base) && Keeps(s, f, f1) && Runs(code, Running(f), n, Running(f1))
    requires g.scopes == s.scopes && g.arenas == s.arenas && Within(Instr(g, Arith(s.tmp + 1, op, l, r)), code)
    requires Holds(s, f, l, a, I64) && Holds(s, f, r, b, I64) && Operate(op, a, b) == Produces(v) && v.IntV?
    ensures Runs(code, Running(f), n', c)
    ensures c == Running(SetReg(f1, s.tmp + 1, v))
    ensures Sim(Instr(g, Arith(s.tmp + 1, op, l, r)), st, c.f, base) && Keeps(s, f, c.f)
  {
    hide Operate, Good, Within, Instr, Sim;
    HoldsKept(s, s, f, f1, l, a, I64);
    HoldsKept(s, s, f, f1, r, b, I64);
    SimSet(code, s, g, Arith(s.tmp + 1, op, l, r), s.tmp + 1, v, st, f1, base);
    var f2 := SetReg(f1, s.tmp + 1, v);
    KeepsTrans(s, s, f, f1, f2);
    RunsStep(code, Running(f1));
    RunsTrans(code, Running(f), n, Running(f1), 1, Running(f2));
    n', c := n + 1, Running(f2);
  }

  /** The test for zero: register `s.tmp + 1`. */
  lemma SimGuard(code: Code, s: Em, r: Operand, st: State, f: Frame, base: nat, b: i64)
    returns (n: nat, c: Config, f': Frame)
    requires Good(s, s) && Sim(s, st, f, base) && UniqueLabels(code)
    requires Readable(f, r) && Read(f, r) == IntV(b) && Within(DivisionGuard(s, r), code)
    ensures Runs(code, Running(f), n, c)
    ensures b == 0 ==> c == Aborted(DivZero, st.log)
    ensures b != 0 ==> c == Running(f') && Sim(DivisionGuard(s, r), st, f', base) && Keeps(s, f, f')
  {
    hide Good, DivisionGuard, GuardBad, Instr, Begin, Terminate, Sim, Within, Keeps, Operate;
    var test, bad, ok := GuardTest(s, r), GuardBad(s, r), GuardOk(s, r);
    GuardWithin(code, s, r);
    assert Operate(Eq, Read(f, r), IntV(0)) == Produces(BoolV(b == 0)) by {
      EqualsZero(b);
    }
    SimArith(code, s, Eq, r, ZERO, BoolV(b == 0), I1, st, f, base);
    var f1 := SetReg(f, s.tmp + 1, BoolV(b == 0));
    SimNewLabels(test, 2, st, f1, base);
    LogOf(test, st, f1, base);
    RunsStep(code, Running(f));
    if b == 0 {
      SimCondBr(code, NewLabels(test, 2), Reg(s.tmp + 1), true, ok - 1, ok, bad, st, f1, base);
      var f2 := f1.(pc := |bad.body|);
      TrapLine(code, bad, DivZero, f2);
      RunsStep(code, Running(f1));
      RunsStep(code, Running(f2));
      RunsTrans(code, Running(f), 1, Running(f1), 1, Running(f2));
      n, c, f' := 3, Aborted(DivZero, st.log), f;
      RunsTrans(code, Running(f), 2, Running(f2), 1, c);
    } else {
      var g := DivisionGuard(s, r);
      SimCondBr(code, NewLabels(test, 2), Reg(s.tmp + 1), false, ok - 1, ok, g, st, f1, base);
      f' := f1.(pc := |g.body|);
      RunsStep(code, Running(f1));
      RunsTrans(code, Running(f), 1, Running(f1), 1, Running(f'));
      n, c := 2, Running(f');
      KeepsMoved(s, f, f1, f');
    }
  }

  lemma KeepsFresh(s: Em, n: nat, f: Frame, f': Frame)
    requires Keeps(Fresh(s, n), f, f')
    ensures Keeps(s, f, f')
  {
  }

  lemma EqualsZero(b: i64)
    ensures Operate(Eq, IntV(b), IntV(0)) == Produces(BoolV(b == 0))
  {
  }

  lemma LogOf(s: Em, st: State, f: Frame, base: nat)
    requires Sim(s, st, f, base)
    ensures f.log == st.log
  {
  }

  lemma KeepsMoved(s: Em, f: Frame, f1: Frame, f2: Frame)
    requires Keeps(s, f, f1) && f2.regs == f1.regs && f2.slots == f1.slots
    ensures Keeps(s, f, f2)
  {
  }

  lemma TrapLine(code: Code, s: Em, kind: TrapKind, f: Frame)
    requires f.pc == |s.body| && !s.terminated && Within(Instr(s, CallTrap(kind)), code)
    ensures Step(code, Running(f)) == Aborted(kind, f.log)
  {
    NextLine(code, s, InstLine(CallTrap(kind)), f);
  }

  lemma GuardWithin(code: Code, s: Em, r: Operand)
    requires Good(s, s) && Within(DivisionGuard(s, r), code)
    ensures var test, bad := GuardTest(s, r), GuardBad(s, r);
            && Within(test, code) && Within(Instr(bad, CallTrap(DivZero)), code) && Within(bad, code)
            && Within(Terminate(NewLabels(test, 2), CondBr(Reg(s.tmp + 1), test.lbl + 1, test.lbl + 2)), code)
            && !test.terminated && SameContext(Fresh(s, 1), test) && SameContext(test, bad)
            && !bad.terminated && |bad.body| > 0 && bad.body[|bad.body| - 1] == LabelLine(test.lbl + 1)
            && !DivisionGuard(s, r).terminated && SameContext(test, DivisionGuard(s, r))
            && |DivisionGuard(s, r).body| > 0
            && DivisionGuard(s, r).body[|DivisionGuard(s, r).body| - 1] == LabelLine(test.lbl + 2)
  {
    var test, bad := GuardTest(s, r), GuardBad(s, r);
    GuardParts(s, r);
    hide DivisionGuard, Good;
    var br := Terminate(NewLabels(test, 2), CondBr(Reg(s.tmp + 1), test.lbl + 1, test.lbl + 2));
    InstrBody(Fresh(s, 1), Arith(s.tmp + 1, Eq, r, ZERO));
    TermBody(NewLabels(test, 2), CondBr(Reg(s.tmp + 1), test.lbl + 1, test.lbl + 2));
    BeginEnds(br, test.lbl + 1);
    var trap := Instr(bad, CallTrap(DivZero));
    InstrBody(bad, CallTrap(DivZero));
    TermBody(trap, Unreachable);
    BeginEnds(Terminate(trap, Unreachable), test.lbl + 2);
    hide Instr, Terminate, Begin;
    PrefixTrans(Terminate(trap, Unreachable).body, DivisionGuard(s, r).body, code);
    PrefixTrans(trap.body, Terminate(trap, Unreachable).body, code);
    PrefixTrans(bad.body, trap.body, code);
    PrefixTrans(br.body, bad.body, code);
    PrefixTrans(test.body, br.body, code);
  }

  lemma InstrBody(s: Em, i: Inst)
    ensures s.body <= Instr(s, i).body && SameContext(s, Instr(s, i)) && !Instr(s, i).terminated
  {
    BeginEnds(s.(lbl := s.lbl + 1), s.lbl + 1);
  }

  lemma TermBody(s: Em, t: Term)
    ensures s.body <= Terminate(s, t).body && SameContext(s, Terminate(s, t)) && Terminate(s, t).terminated
  {
    BeginEnds(s.(lbl := s.lbl + 1), s.lbl + 1);
  }
}
