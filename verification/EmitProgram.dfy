/** Semantic preservation for whole functions. */
module EmitProgram {
  import opened Wrappers
  import opened UbelSyntax
  import opened UbelSource
  import opened UbelLaws
  import opened BlockCode
  import opened EmitSpec
  import opened EmitStatic
  import opened EmitKeeps
  import opened EmitSim
  import opened EmitSteps
  import opened EmitFlow
  import opened EmitCorrect

  // ---------------------------------------------------------------- the emitted body

  /** The state of the emitter after the parameters. */
  function Entry(f: Function): Em {
    EmitParams(EMPTY_EM.(ret := f.ret), f.params, 0)
  }

  /** The last statement of the body is an expression, the function has a result, and the type that the emitter
      finds for the expression is not the result type. */
  predicate DoublesTail(f: Function) {
    && f.ret != Void && f.body != [] && IsExprStmt(f.body[|f.body| - 1])
    && (f.body[|f.body| - 1].Eval? ==>
          var s := EmitStmts(Entry(f), f.body[..|f.body| - 1]);
          s.Ok? && var v := EmitExpr(s.value, f.body[|f.body| - 1].e); v.Ok? && v.value.ty != f.ret)
  }

  /** The last statement of a body, as the emitted code runs it: an expression of the result type is returned, and the
      value of any other statement is dropped. */
  function EvalOnce(last: Stmt, ret: Ty, st: State, fuel: nat): Res {
    if ret != Void && last.Eval? then
      var v := EvalExpr(last.e, st, fuel);
      if !v.out.Yield? then v
      else if HasType(v.out.v, ret) then Res(Returned([v.out.v]), v.st)
      else Res(Done, v.st)
    else EvalStmt(last, st, fuel)
  }

  function EvalEmittedLast(last: Stmt, ret: Ty, twice: bool, st: State, fuel: nat): Res {
    if !twice then EvalOnce(last, ret, st, fuel)
    else
      var r := EvalStmt(last, st, fuel);
      if r.out != Done then r else EvalStmt(last, r.st, fuel)
  }

  /** What the emitted statements of a body do. */
  function EvalEmitted(stmts: seq<Stmt>, ret: Ty, twice: bool, st: State, fuel: nat): Res {
    if stmts == [] then Res(Done, st)
    else
      var n := |stmts| - 1;
      var r := EvalStmts(stmts[..n], st, fuel);
      if r.out != Done then r else EvalEmittedLast(stmts[n], ret, twice, r.st, fuel)
  }

  /** What the emitted code of a function does: counters wrap around, the last statement runs twice if it is such an
      expression, and the value of a last statement that is no expression is dropped. */
  function RunEmitted(f: Function, args: seq<Value>, open: nat, fuel: nat): Res
    requires |f.params| == |args|
  {
    FallOff(f.ret, EvalEmitted(f.body, f.ret, DoublesTail(f), EntryState(f, args, open, true), fuel))
  }

  function EntryScope(params: seq<(Name, Ty)>, args: seq<Value>, open: nat): State
    requires |params| == |args|
  {
    State([ParamScope(params, args)], [], open, true, Below)
  }

  // ---------------------------------------------------------------- the run

  function ArgRegs(args: seq<Value>): map<int, Value> {
    if args == [] then map[] else ArgRegs(args[..|args| - 1])[-|args| := args[|args| - 1]]
  }

  /** The frame on entry: argument `i` is in register `-1 - i`. */
  function EntryFrame(args: seq<Value>, base: nat): Frame {
    Frame(0, ArgRegs(args), map[], base, [])
  }

  lemma {:induction false} ArgAt(args: seq<Value>, i: nat)
    requires i < |args|
    ensures -1 - i in ArgRegs(args) && ArgRegs(args)[-1 - i] == args[i]
    decreases |args|
  {
    if i < |args| - 1 {
      ArgAt(args[..|args| - 1], i);
    }
  }

  lemma {:induction false} ArgKeys(args: seq<Value>, r: int)
    requires r in ArgRegs(args)
    ensures -|args| <= r < 0
    decreases |args|
  {
    if r != -|args| {
      ArgKeys(args[..|args| - 1], r);
    }
  }

  ghost predicate Typed(params: seq<(Name, Ty)>, args: seq<Value>) {
    |params| == |args| && forall i :: 0 <= i < |args| ==> HasType(args[i], params[i].1)
  }

  ghost predicate Reaches(code: Code, c: Config, c': Config) {
    exists n: nat :: Runs(code, c, n, c')
  }

  /** The machine does what the evaluation `r` did: it returns the same values or traps in the same way, with the same
      output and the arenas of the callers open, or is still running after `fuel` steps and has printed the same. Nothing
      is said after an operation without a defined result. */
  ghost predicate Behaves(code: Code, c: Config, r: Res, base: nat, fuel: nat) {
    match r.out
    case Returned(vs) => Reaches(code, c, Finished(vs, base, r.st.log))
    case Trapped(kind) => Reaches(code, c, Aborted(kind, r.st.log))
    case Timeout => exists n: nat, f :: n >= fuel && Runs(code, c, n, Running(f)) && f.log == r.st.log
    case Undef => true
    case _ => false
  }

  lemma EntryReads(args: seq<Value>, base: nat, i: nat)
    requires i < |args|
    ensures Readable(EntryFrame(args, base), Reg(-1 - i)) && Read(EntryFrame(args, base), Reg(-1 - i)) == args[i]
  {
    ArgAt(args, i);
  }

  /** The parameters are stored in their slots. */
  lemma {:induction false} SimParams(code: Code, s: Em, params: seq<(Name, Ty)>, args: seq<Value>, i: nat, f: Frame, base: nat)
    returns (n: nat, f': Frame)
    requires Good(s, s) && i <= |params| && Typed(params, args) && f.regs == EntryFrame(args, base).regs
    requires Sim(s, EntryScope(params[..i], args[..i], base), f, base) && Within(EmitParams(s, params, i), code)
    ensures Runs(code, Running(f), n, Running(f'))
    ensures Sim(EmitParams(s, params, i), EntryScope(params, args, base), f', base)
    decreases |params| - i
  {
    hide Good, Within, Sim, Keeps, DeclareLocal, Instr;
    if i == |params| {
      n, f' := 0, f;
      assert params[..i] == params && args[..i] == args;
    } else {
      var x, ty, v := params[i].0, params[i].1, args[i];
      var d := DeclareLocal(s, x, ty);
      var s1 := Instr(d, Store(Reg(-1 - i), s.tmp + 1));
      DeclareGood(s, s, x, ty);
      InstrGood(s, d, Store(Reg(-1 - i), d.tmp));
      Refl(s, s1);
      ParamsGood(s1, params, i + 1);
      WithinBack(s1, EmitParams(s1, params, i + 1), code);
      EntryReads(args, base, i);
      var st := EntryScope(params[..i], args[..i], base);
      SimDeclare(code, s, x, Reg(-1 - i), ty, st, f, base);
      ScopeMore(params, args, i);
      var f1 := f.(pc := f.pc + 1, slots := f.slots[s.tmp + 1 := v]);
      RunsStep(code, Running(f));
      var m;
      m, f' := SimParams(code, s1, params, args, i + 1, f1, base);
      RunsTrans(code, Running(f), 1, Running(f1), m, Running(f'));
      n := 1 + m;
    }
  }

  lemma ScopeMore(params: seq<(Name, Ty)>, args: seq<Value>, i: nat)
    requires i < |params| == |args|
    ensures Declare([ParamScope(params[..i], args[..i])], params[i].0, args[i]) == [ParamScope(params[..i + 1], args[..i + 1])]
  {
    assert params[..i + 1][..i] == params[..i] && args[..i + 1][..i] == args[..i];
  }

  // ---------------------------------------------------------------- the body

  /** The last statement of a body, as it is emitted. */
  function EmitLast(s: Em, last: Stmt): R<Em> {
    if s.ret == Void || !IsExprStmt(last) then EmitStmt(s, last)
    else if last.Eval? then
      var v :- EmitExpr(s, last.e);
      if v.ty == v.s.ret then DoReturn(v) else EmitStmt(v.s, last)
    else
      var s1 :- EmitStmt(s, last);
      EmitStmt(s1, last)
  }

  lemma LowerForm(s: Em, stmts: seq<Stmt>) returns (s1: Em)
    requires stmts != [] && LowerBody(s, stmts).Ok?
    ensures EmitStmts(s, stmts[..|stmts| - 1]) == Ok(s1) && EmitLast(s1, stmts[|stmts| - 1]) == LowerBody(s, stmts)
  {
    hide EmitStmts, EmitExpr, EmitStmt, DoReturn;
    s1 := EmitStmts(s, stmts[..|stmts| - 1]).value;
  }

  /** Whether the last statement is emitted twice, as the emitter decides it. */
  predicate Twice(s: Em, last: Stmt) {
    && s.ret != Void && IsExprStmt(last)
    && (last.Eval? ==> EmitExpr(s, last.e).Ok? && EmitExpr(s, last.e).value.ty != s.ret)
  }

  /** The states around a statement that is emitted twice. */
  lemma TwiceForm(s: Em, last: Stmt) returns (s1: Em)
    requires Twice(s, last) && EmitLast(s, last).Ok? && Good(s, s)
    ensures EmitStmt(s, last) == Ok(s1) && EmitStmt(s1, last) == EmitLast(s, last)
  {
    hide EmitExpr, Good;
    if last.Eval? {
      s1 := EmitExpr(s, last.e).value.s;
      ExprGood(s, last.e);
      SameFields(s, s1);
    } else {
      s1 := EmitStmt(s, last).value;
    }
  }

  lemma SimTwice(code: Code, s: Em, last: Stmt, st: State, fuel: nat, f: Frame, base: nat)
    returns (n: nat, c: Config)
    requires Good(s, s) && Twice(s, last) && EmitLast(s, last).Ok? && Sim(s, st, f, base) && Ctx(code, s)
    requires Within(EmitLast(s, last).value, code)
    ensures Runs(code, Running(f), n, c) && |s.scopes| > 0
    ensures Lands(code, s, EmitLast(s, last).value, f, EvalEmittedLast(last, s.ret, true, st, fuel), c, base, fuel, n, |s.scopes| - 1)
  {
    hide EmitExpr, EmitStmt, EmitLast, Good, Ctx, Within, Sim, Keeps, Lands, EvalStmt, Twice;
    GoodScopes(s, s);
    var s1 := TwiceForm(s, last);
    var s' := EmitLast(s, last).value;
    StmtGood(s, last);
    Refl(s, s1);
    StmtGood(s1, last);
    WithinBack(s1, s', code);
    CtxGood(code, s, s1);
    SameFields(s, s1);
    n, c := SimStmt(code, s, last, st, fuel, f, base);
    var r := EvalStmt(last, st, fuel);
    LandsNarrow(code, s, s1, f, r, c, base, fuel, n);
    if r.out == Done {
      Through(code, s, s1, f, r, c, base, fuel, n, |s.scopes| - 1);
      var n1, f1 := n, c.f;
      n, c := SimStmt(code, s1, last, r.st, fuel, f1, base);
      LandsNarrow(code, s1, s', f1, EvalStmt(last, r.st, fuel), c, base, fuel, n);
      ChainStmts(code, s, s1, s', f, n1, f1, EvalStmt(last, r.st, fuel), c, base, fuel, n);
      n := n1 + n;
    } else {
      LandsEarly(code, s, s1, s', f, r, c, base, fuel, n, |s.scopes| - 1);
    }
  }

  lemma OnceForm(s: Em, last: Stmt)
    requires EmitLast(s, last).Ok? && !Twice(s, last) && Good(s, s)
    ensures if s.ret != Void && last.Eval? then
              && EmitExpr(s, last.e).Ok? && EmitExpr(s, last.e).value.ty == s.ret
              && EmitLast(s, last) == DoReturn(EmitExpr(s, last.e).value)
            else EmitStmt(s, last) == EmitLast(s, last)
  {
    hide EmitExpr, EmitStmt, Good, DoReturn;
    if s.ret != Void && last.Eval? {
      ExprGood(s, last.e);
      SameFields(s, EmitExpr(s, last.e).value.s);
    }
  }

  lemma SimOnce(code: Code, s: Em, last: Stmt, st: State, fuel: nat, f: Frame, base: nat)
    returns (n: nat, c: Config)
    requires Good(s, s) && !Twice(s, last) && EmitLast(s, last).Ok? && Sim(s, st, f, base) && Ctx(code, s)
    requires Within(EmitLast(s, last).value, code)
    ensures Runs(code, Running(f), n, c)
    ensures Lands(code, s, EmitLast(s, last).value, f, EvalOnce(last, s.ret, st, fuel), c, base, fuel, n, |s.scopes|)
  {
    hide EmitExpr, EmitStmt, EmitLast, Good, Ctx, Within, Sim, Keeps, EvalStmt, EvalExpr, Twice, DoReturn;
    OnceForm(s, last);
    if s.ret != Void && last.Eval? {
      n, c := SimReturnValue(code, s, last.e, st, fuel, f, base);
      hide CloseLog, AtLoop;
    } else {
      n, c := SimStmt(code, s, last, st, fuel, f, base);
    }
  }

  lemma SimLast(code: Code, s: Em, last: Stmt, st: State, fuel: nat, f: Frame, base: nat)
    returns (n: nat, c: Config)
    requires Good(s, s) && EmitLast(s, last).Ok? && Sim(s, st, f, base) && Ctx(code, s)
    requires Within(EmitLast(s, last).value, code)
    ensures Runs(code, Running(f), n, c) && |s.scopes| > 0
    ensures Lands(code, s, EmitLast(s, last).value, f, EvalEmittedLast(last, s.ret, Twice(s, last), st, fuel), c, base, fuel, n, |s.scopes| - 1)
  {
    hide EmitLast, Good, Ctx, Within, Sim, Lands, EvalOnce, Twice;
    GoodScopes(s, s);
    if Twice(s, last) {
      n, c := SimTwice(code, s, last, st, fuel, f, base);
    } else {
      n, c := SimOnce(code, s, last, st, fuel, f, base);
      LandsNarrow(code, s, EmitLast(s, last).value, f, EvalOnce(last, s.ret, st, fuel), c, base, fuel, n);
    }
  }

  lemma LastGood(s: Em, last: Stmt)
    requires Good(s, s) && EmitLast(s, last).Ok?
    ensures Good(s, EmitLast(s, last).value)
  {
    hide EmitStmt, EmitExpr, EmitLast, Good, DoReturn;
    if Twice(s, last) {
      var s1 := TwiceForm(s, last);
      StmtGood(s, last);
      Refl(s, s1);
      StmtGood(s1, last);
      GoodTrans(s, s1, EmitLast(s, last).value);
    } else {
      OnceForm(s, last);
      if s.ret != Void && last.Eval? {
        ExprGood(s, last.e);
        ReturnGood(s, EmitExpr(s, last.e).value);
      } else {
        StmtGood(s, last);
      }
    }
  }

  lemma ReturnGood(s0: Em, v: Emitted)
    requires Good(s0, v.s) && DoReturn(v).Ok?
    ensures Good(s0, DoReturn(v).value)
  {
    hide Good;
    LeaveGood(s0, v.s, 0, Ret([v.v]));
  }

  lemma SimBody(code: Code, s: Em, stmts: seq<Stmt>, st: State, fuel: nat, f: Frame, base: nat)
    returns (n: nat, c: Config)
    requires Good(s, s) && LowerBody(s, stmts).Ok? && Sim(s, st, f, base) && Ctx(code, s)
    requires Within(LowerBody(s, stmts).value, code)
    ensures Runs(code, Running(f), n, c) && |s.scopes| > 0
    ensures Lands(code, s, LowerBody(s, stmts).value, f, EvalEmitted(stmts, s.ret, TwiceIn(s, stmts), st, fuel), c, base, fuel, n, |s.scopes| - 1)
  {
    hide EmitStmts, EmitLast, Good, Ctx, Within, Sim, Keeps, Lands, EvalStmts, EvalEmittedLast, Twice, LowerBody;
    GoodScopes(s, s);
    if stmts == [] {
      LowerEmpty(s);
      n, c := 0, Running(f);
      KeepsRefl(s, f);
      Arrive(code, s, s, f, st, f, base, fuel, 0, |s.scopes| - 1);
    } else {
      var last, prefix, s' := stmts[|stmts| - 1], stmts[..|stmts| - 1], LowerBody(s, stmts).value;
      var s1 := LowerForm(s, stmts);
      StmtsGood(s, prefix);
      Refl(s, s1);
      LastGood(s1, last);
      WithinBack(s1, s', code);
      CtxGood(code, s, s1);
      SameFields(s, s1);
      n, c := SimStmts(code, s, prefix, st, fuel, f, base);
      var r := EvalStmts(prefix, st, fuel);
      if r.out == Done {
        Through(code, s, s1, f, r, c, base, fuel, n, |s.scopes| - 1);
        var n1, f1 := n, c.f;
        n, c := SimLast(code, s1, last, r.st, fuel, f1, base);
        ChainStmts(code, s, s1, s', f, n1, f1, EvalEmittedLast(last, s.ret, Twice(s1, last), r.st, fuel), c, base, fuel, n);
        n := n1 + n;
      } else {
        LandsEarly(code, s, s1, s', f, r, c, base, fuel, n, |s.scopes| - 1);
      }
    }
  }

  lemma LowerEmpty(s: Em)
    ensures LowerBody(s, []) == Ok(s)
  {
  }

  predicate TwiceIn(s: Em, stmts: seq<Stmt>) {
    && stmts != [] && EmitStmts(s, stmts[..|stmts| - 1]).Ok?
    && Twice(EmitStmts(s, stmts[..|stmts| - 1]).value, stmts[|stmts| - 1])
  }

  lemma EmittedIsRun(f: Function, args: seq<Value>, base: nat, fuel: nat)
    requires Good(Entry(f), Entry(f)) && |f.params| == |args| && LowerBody(Entry(f), f.body).Ok? && Entry(f).ret == f.ret
    ensures FallOff(f.ret, EvalEmitted(f.body, f.ret, TwiceIn(Entry(f), f.body), EntryScope(f.params, args, base), fuel))
            == RunEmitted(f, args, base, fuel)
  {
    hide EmitStmts, EvalEmitted, EmitExpr, Entry, Good;
    if f.body != [] {
      var n := |f.body| - 1;
      var s1 := LowerForm(Entry(f), f.body);
      StmtsGood(Entry(f), f.body[..n]);
      SameFields(Entry(f), s1);
    }
  }

  // ---------------------------------------------------------------- the end of a function

  lemma EntrySound(f: Function)
    ensures Good(Entry(f), Entry(f)) && Entry(f).ret == f.ret && Entry(f).loops == [] && Entry(f).arenas == [] && |Entry(f).scopes| == 1
    ensures Good(EMPTY_EM.(ret := f.ret), EMPTY_EM.(ret := f.ret)) && Good(EMPTY_EM.(ret := f.ret), Entry(f))
  {
    var s := EMPTY_EM.(ret := f.ret);
    assert Good(s, s) by {
      InvGood(s);
    }
    hide Good;
    ParamsGood(s, f.params, 0);
    Refl(s, Entry(f));
    SameFields(s, Entry(f));
  }

  /** Falling off the end. */
  lemma SimEnd(code: Code, s: Em, st: State, f: Frame, base: nat) returns (c: Config)
    requires Sim(s, st, f, base) && Within(EndBody(s), code) && s.arenas == []
    ensures Runs(code, Running(f), 1, c)
    ensures c == if s.ret == Void then Finished([], base, st.log) else Aborted(NoReturn, st.log)
  {
    RunsStep(code, Running(f));
    c := Step(code, Running(f));
    if s.ret == Void {
      NextLine(code, s, TermLine(Ret([])), f);
    } else {
      var t := Instr(s, CallTrap(NoReturn));
      TermBody(t, Unreachable);
      PrefixTrans(t.body, EndBody(s).body, code);
      NextLine(code, s, InstLine(CallTrap(NoReturn)), f);
    }
  }

  /** Where the landing of the body leaves the whole function. */
  lemma LandsEnd(code: Code, s: Em, s': Em, f: Frame, r: Res, c: Config, base: nat, fuel: nat, n: nat, k: nat)
    requires Good(s, s') && s.loops == [] && s.arenas == [] && Within(EndBody(s'), code) && Runs(code, Running(f), n, c)
    requires Lands(code, s, s', f, r, c, base, fuel, n, k) && !r.out.Yield?
    ensures Behaves(code, Running(f), FallOff(s.ret, r), base, fuel)
  {
    SameFields(s, s');
    hide Good, Sim, Keeps, AtLoop, Within, EndBody, Runs;
    if r.out == Done {
      var c' := SimEnd(code, s', r.st, c.f, base);
      RunsTrans(code, Running(f), n, c, 1, c');
    }
  }

  lemma BodyNoYield(stmts: seq<Stmt>, ret: Ty, twice: bool, st: State, fuel: nat)
    ensures !EvalEmitted(stmts, ret, twice, st, fuel).out.Yield?
  {
    hide EvalStmts, EvalStmt, EvalExpr;
  }

  /** Semantic preservation: running the emitted code of a function does what `RunEmitted` says. */
  lemma EmittedRuns(f: Function, args: seq<Value>, base: nat, fuel: nat)
    requires EmitFunction(f).Ok? && Typed(f.params, args)
    ensures Behaves(EmitFunction(f).value, Running(EntryFrame(args, base)), RunEmitted(f, args, base, fuel), base, fuel)
  {
    var code := EmitFunction(f).value;
    var s0, s, f0 := EMPTY_EM.(ret := f.ret), Entry(f), EntryFrame(args, base);
    var s' := LowerBody(s, f.body).value;
    EntrySound(f);
    EmittedBlocks(f);
    hide LowerBody, EmitParams, Good, Sim, Lands, UniqueLabels, EvalEmitted, RunEmitted, Behaves, EndBody, Runs;
    LowerGood(s, f.body);
    EndBodyGood(s', s') by { Refl(s, s'); }
    WithinBack(s', EndBody(s'), code) by { Refl(s, s'); EndBodyGood(s', s'); }
    WithinBack(s, s', code);
    EntrySim(f, args, base);
    var n0, f1 := SimParams(code, s0, f.params, args, 0, f0, base);
    EntryCtx(code, s);
    var n1, c := SimBody(code, s, f.body, EntryScope(f.params, args, base), fuel, f1, base);
    var r := EvalEmitted(f.body, f.ret, TwiceIn(s, f.body), EntryScope(f.params, args, base), fuel);
    BodyNoYield(f.body, f.ret, TwiceIn(s, f.body), EntryScope(f.params, args, base), fuel);
    LandsEnd(code, s, s', f1, r, c, base, fuel, n1, |s.scopes| - 1);
    EmittedIsRun(f, args, base, fuel);
    BehavesBack(code, Running(f0), n0, Running(f1), RunEmitted(f, args, base, fuel), base, fuel);
  }

  lemma EntryCtx(code: Code, s: Em)
    requires UniqueLabels(code) && s.loops == []
    ensures Ctx(code, s)
  {
  }

  lemma EntrySim(f: Function, args: seq<Value>, base: nat)
    requires Typed(f.params, args)
    ensures Sim(EMPTY_EM.(ret := f.ret), EntryScope(f.params[..0], args[..0], base), EntryFrame(args, base), base)
  {
  }

  lemma BehavesBack(code: Code, c: Config, n: nat, c': Config, r: Res, base: nat, fuel: nat)
    requires Runs(code, c, n, c') && Behaves(code, c', r, base, fuel)
    ensures Behaves(code, c, r, base, fuel)
  {
    hide Runs;
    match r.out {
      case Returned(vs) =>
        var m: nat :| Runs(code, c', m, Finished(vs, base, r.st.log));
        RunsTrans(code, c, n, c', m, Finished(vs, base, r.st.log));
      case Trapped(kind) =>
        var m: nat :| Runs(code, c', m, Aborted(kind, r.st.log));
        RunsTrans(code, c, n, c', m, Aborted(kind, r.st.log));
      case Timeout =>
        var m: nat, f :| m >= fuel && Runs(code, c', m, Running(f)) && f.log == r.st.log;
        RunsTrans(code, c, n, c', m, Running(f));
      case _ =>
    }
  }

  // ---------------------------------------------------------------- the emitted code and the meaning of the body

  /** The body ends in a statement that is no expression but may have a value. */
  predicate DropsTail(f: Function) {
    f.ret != Void && f.body != [] && !f.body[|f.body| - 1].Eval? && CarriesValue(f.body[|f.body| - 1])
  }

  /** The body ends in such a statement, and in this run it has a value of the result type. */
  predicate LosesValue(f: Function, args: seq<Value>, open: nat, fuel: nat)
    requires |f.params| == |args|
  {
    && f.ret != Void && f.body != [] && !f.body[|f.body| - 1].Eval?
    && var r := EvalTailStmts(f.body, EntryState(f, args, open, false), fuel);
       r.out.Yield? && HasType(r.out.v, f.ret)
  }

  lemma CarriedValue(f: Function, args: seq<Value>, open: nat, fuel: nat)
    requires |f.params| == |args| && LosesValue(f, args, open, fuel)
    ensures DropsTail(f)
  {
    if !CarriesValue(f.body[|f.body| - 1]) {
      NoValueList(f.body, EntryState(f, args, open, false), fuel);
    }
  }

  lemma WrapEmitted(stmts: seq<Stmt>, ret: Ty, st: State, fuel: nat)
    requires !st.wraps
    ensures Fits(st, EvalEmitted(stmts, ret, false, st, fuel), EvalEmitted(stmts, ret, false, WithWrap(st), fuel))
  {
    hide EvalStmts, EvalStmt, EvalExpr;
    if stmts != [] {
      var n := |stmts| - 1;
      WrapStmts(stmts[..n], st, fuel);
      var r := EvalStmts(stmts[..n], st, fuel);
      WrapStmt(stmts[n], r.st, fuel);
      if stmts[n].Eval? {
        WrapExpr(stmts[n].e, r.st, fuel);
      }
    }
  }

  /** The emitted body, with counters that end, does what the body does, but for a lost value. */
  lemma EmittedBody(f: Function, args: seq<Value>, open: nat, fuel: nat)
    requires |f.params| == |args|
    ensures var r := EvalBody(f.body, f.ret, EntryState(f, args, open, false), fuel);
            EvalEmitted(f.body, f.ret, false, EntryState(f, args, open, false), fuel) == if LosesValue(f, args, open, fuel) then Res(Done, r.st) else r
  {
    hide EvalStmts, EvalStmt, EvalExpr, EvalTail;
    if f.body != [] {
      var n := |f.body| - 1;
      var r := EvalStmts(f.body[..n], EntryState(f, args, open, false), fuel);
      TailStmt(f.body[n], r.st, fuel);
      if f.body[n].Eval? {
        TailOfExpr(f.body[n], r.st, fuel);
      }
    }
  }

  lemma TailOfExpr(s: Stmt, st: State, fuel: nat)
    requires s.Eval?
    ensures EvalTail(s, st, fuel) == EvalExpr(s.e, st, fuel)
  {
    hide EvalExpr;
  }

  /** How the emitted code of a function without a doubled end compares with the meaning of its body, if no inclusive loop
      has passed the largest integer: it is the same, except that a lost value leads to a trap. */
  lemma RunsCompared(f: Function, args: seq<Value>, open: nat, fuel: nat)
    requires |f.params| == |args| && !DoublesTail(f) && RunFunction(f, args, open, fuel).st.top != Passed
    ensures var r := RunFunction(f, args, open, fuel);
            RunEmitted(f, args, open, fuel) == Wrapping(if LosesValue(f, args, open, fuel) then Res(Trapped(NoReturn), r.st) else r)
  {
    hide EvalEmitted, EvalBody, DoublesTail, EvalTailStmts;
    EmittedBody(f, args, open, fuel);
    WrapEmitted(f.body, f.ret, EntryState(f, args, open, false), fuel);
    LostReturned(f, args, open, fuel);
  }

  lemma LostReturned(f: Function, args: seq<Value>, open: nat, fuel: nat)
    requires |f.params| == |args|
    ensures LosesValue(f, args, open, fuel) ==>
              var r := EvalTailStmts(f.body, EntryState(f, args, open, false), fuel);
              f.ret != Void && EvalBody(f.body, f.ret, EntryState(f, args, open, false), fuel) == Res(Returned([r.out.v]), r.st)
  {
    hide EvalTailStmts;
  }

  /** The emitted code does what the body of the function does, unless the emitter doubles the last expression or drops the
      value of the last statement, or the body of an inclusive loop comes to its end for the largest integer. */
  lemma SemanticPreservation(f: Function, args: seq<Value>, base: nat, fuel: nat)
    requires EmitFunction(f).Ok? && Typed(f.params, args) && !DoublesTail(f) && !DropsTail(f)
    requires RunFunction(f, args, base, fuel).st.top != Passed
    ensures Behaves(EmitFunction(f).value, Running(EntryFrame(args, base)), RunFunction(f, args, base, fuel), base, fuel)
  {
    EmittedRuns(f, args, base, fuel);
    RunsCompared(f, args, base, fuel);
    hide EmitFunction, RunFunction, RunEmitted, LosesValue, DropsTail, DoublesTail;
    if LosesValue(f, args, base, fuel) {
      CarriedValue(f, args, base, fuel);
    }
  }
}
