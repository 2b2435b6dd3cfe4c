/** Where the emitted code departs from the direct meaning of a body. */
module EmitLimits {
  import opened Wrappers
  import opened UbelSyntax
  import opened UbelSource
  import opened UbelLaws
  import opened UbelFuel
  import opened BlockCode
  import opened EmitSpec
  import opened EmitStatic
  import opened EmitKeeps
  import opened EmitSim
  import opened EmitSteps
  import opened EmitFlow
  import opened EmitCorrect
  import opened EmitProgram
  import opened EmitResults

  // ---------------------------------------------------------------- the last expression, emitted twice

  function TextOutput(t: string): seq<Event> {
    if t == "" then [] else [PrintedText(t)]
  }

  lemma EvalPrintText(t: string, st: State, fuel: nat)
    ensures EvalStmt(Print([Text(t)]), st, fuel) == Res(Done, st.(log := st.log + TextOutput(t)))
  {
    var shown := [ShownText(t)];
    assert [Text(t)][1..] == [];
    assert [] + shown == shown;
    assert shown[1..] == [];
    assert Output(shown) == TextOutput(t) + [] == TextOutput(t);
    assert EvalPrint([Text(t)], [], st, fuel) == EvalPrint([], shown, st, fuel);
  }

  lemma PrintRuns(f: Function, args: seq<Value>, base: nat, fuel: nat, pre: seq<Stmt>, t: string)
    requires |f.params| == |args| && f.ret != Void && f.body == pre + [Print([Text(t)])]
    requires var r := EvalStmts(pre, EntryState(f, args, base, false), fuel); r.out == Done && r.st.top != Passed
    ensures var st := EvalStmts(pre, EntryState(f, args, base, false), fuel).st;
            && RunFunction(f, args, base, fuel) == Res(Trapped(NoReturn), st.(log := st.log + TextOutput(t)))
            && RunEmitted(f, args, base, fuel) == Res(Trapped(NoReturn), WithWrap(st.(log := st.log + TextOutput(t) + TextOutput(t))))
  {
    hide EvalStmt, EvalStmts, EmitStmts, EmitExpr;
    var last, st0 := Print([Text(t)]), EntryState(f, args, base, false);
    assert f.body[..|f.body| - 1] == pre && f.body[|f.body| - 1] == last && DoublesTail(f);
    var st := EvalStmts(pre, st0, fuel).st;
    WrapStmts(pre, st0, fuel);
    EvalPrintText(t, st, fuel);
    EvalPrintText(t, WithWrap(st), fuel);
    EvalPrintText(t, WithWrap(st).(log := st.log + TextOutput(t)), fuel);
    assert EvalTailStmts(f.body, st0, fuel) == EvalStmt(last, st, fuel);
  }

  /** The body without its last statement. */
  function Front(f: Function): seq<Stmt>
    requires f.body != []
  {
    f.body[..|f.body| - 1]
  }

  function Final(f: Function): Stmt
    requires f.body != []
  {
    f.body[|f.body| - 1]
  }

  /** The run comes to the end of the body, in state `st`, having passed the last statement in state `mid`. */
  ghost predicate ComesToEnd(f: Function, args: seq<Value>, base: nat, fuel: nat, mid: State, st: State) {
    && |f.params| == |args| && f.body != []
    && EvalStmts(Front(f), EntryState(f, args, base, false), fuel) == Res(Done, mid)
    && EvalStmt(Final(f), mid, fuel) == Res(Done, st) && st.top != Passed
  }

  /** Nor does more fuel, or a counter that wraps around, change such a run. */
  lemma EndsWithMore(f: Function, args: seq<Value>, base: nat, fuel: nat, mid: State, st: State, more: nat)
    requires ComesToEnd(f, args, base, fuel, mid, st) && fuel <= more
    ensures EvalStmts(Front(f), EntryState(f, args, base, true), more) == Res(Done, WithWrap(mid))
    ensures EvalStmt(Final(f), WithWrap(mid), more) == Res(Done, WithWrap(st))
  {
    hide EvalStmts, EvalStmt;
    var st0 := EntryState(f, args, base, false);
    WrapStmts(Front(f), st0, fuel);
    WrapStmt(Final(f), mid, fuel);
    assert EntryState(f, args, base, true) == WithWrap(st0);
    MoreStmts(Front(f), WithWrap(st0), fuel, more);
    MoreStmt(Final(f), WithWrap(mid), fuel, more);
  }

  lemma DoubledRun(f: Function, args: seq<Value>, base: nat, fuel: nat, mid: State, st: State, more: nat)
    requires ComesToEnd(f, args, base, fuel, mid, st) && fuel <= more && DoublesTail(f)
    ensures RunEmitted(f, args, base, more) == FallOff(f.ret, EvalStmt(Final(f), WithWrap(st), more))
  {
    EndsWithMore(f, args, base, fuel, mid, st, more);
    hide EvalStmts, EvalStmt, EmitStmts, EmitExpr, DoublesTail;
  }

  /** The same from any state of the emitter at the start of a body. */
  lemma TailValue(code: Code, s: Em, stmts: seq<Stmt>, st: State, mid: State, fuel: nat, f: Frame, base: nat)
    requires Good(s, s) && LowerBody(s, stmts).Ok? && Sim(s, st, f, base) && Ctx(code, s) && Within(LowerBody(s, stmts).value, code)
    requires stmts != [] && stmts[|stmts| - 1].Eval? && TwiceIn(s, stmts)
    requires EvalStmts(stmts[..|stmts| - 1], st, fuel) == Res(Done, mid)
    ensures var v := EvalExpr(stmts[|stmts| - 1].e, mid, fuel); v.out.Yield? ==> !HasType(v.out.v, s.ret)
  {
    hide EmitStmts, EmitStmt, EmitExpr, EmitLast, Good, Ctx, Within, Sim, Keeps, Lands, EvalStmts, EvalExpr, LowerBody, HasType, Holds;
    var last, prefix, s' := stmts[|stmts| - 1], stmts[..|stmts| - 1], LowerBody(s, stmts).value;
    var s1 := LowerForm(s, stmts);
    StmtsGood(s, prefix);
    Refl(s, s1);
    LastGood(s1, last);
    WithinBack(s1, s', code);
    CtxGood(code, s, s1);
    SameFields(s, s1);
    var n, c := SimStmts(code, s, prefix, st, fuel, f, base);
    GoodScopes(s, s);
    Through(code, s, s1, f, Res(Done, mid), c, base, fuel, n, |s.scopes| - 1);
    TwiceWithin(code, s1, last);
    var m, c' := SimExpr(code, s1, last.e, mid, fuel, c.f, base);
    TypesApart(EmitExpr(s1, last.e).value.ty, s.ret);
    HoldsType(code, s1, EmitExpr(s1, last.e).value, c.f, EvalExpr(last.e, mid, fuel), c', base, fuel, m);
  }

  lemma HoldsType(code: Code, s: Em, r: Emitted, f: Frame, res: Res, c: Config, base: nat, fuel: nat, n: nat)
    requires LandsExpr(code, s, r, f, res, c, base, fuel, n)
    ensures res.out.Yield? ==> HasType(res.out.v, r.ty)
  {
    hide Lands, HasType, Readable, Read;
  }

  lemma TypesApart(a: Ty, b: Ty)
    requires a != b
    ensures forall v :: HasType(v, a) ==> !HasType(v, b)
  {
  }

  lemma TwiceWithin(code: Code, s: Em, last: Stmt)
    requires Good(s, s) && Twice(s, last) && last.Eval? && EmitLast(s, last).Ok? && Within(EmitLast(s, last).value, code)
    ensures EmitExpr(s, last.e).Ok? && Within(EmitExpr(s, last.e).value.s, code) && EmitExpr(s, last.e).value.ty != s.ret
  {
    hide EmitExpr, EmitStmt, Good, Within;
    ExprGood(s, last.e);
    var s1 := EmitExpr(s, last.e).value.s;
    SameFields(s, s1);
    Refl(s, s1);
    StmtGood(s1, last);
    WithinBack(s1, EmitLast(s, last).value, code);
  }

  /** The machine comes to the start of the body. */
  lemma AtEntry(f: Function, args: seq<Value>, base: nat) returns (f1: Frame)
    requires EmitFunction(f).Ok? && Typed(f.params, args)
    ensures var code, s := EmitFunction(f).value, Entry(f);
            && Good(s, s) && s.ret == f.ret && LowerBody(s, f.body).Ok? && Within(LowerBody(s, f.body).value, code)
            && Ctx(code, s) && Sim(s, EntryScope(f.params, args, base), f1, base)
  {
    var code := EmitFunction(f).value;
    var s0, s, f0 := EMPTY_EM.(ret := f.ret), Entry(f), EntryFrame(args, base);
    var s' := LowerBody(s, f.body).value;
    EntrySound(f);
    EmittedBlocks(f);
    hide LowerBody, EmitParams, Good, Sim, UniqueLabels, EndBody, Runs, Typed, EntryScope, ParamScope, ArgRegs, Ctx;
    LowerGood(s, f.body);
    EndBodyGood(s', s') by { Refl(s, s'); }
    WithinBack(s', EndBody(s'), code) by { Refl(s, s'); EndBodyGood(s', s'); }
    WithinBack(s, s', code);
    EntrySim(f, args, base);
    var n0, f' := SimParams(code, s0, f.params, args, 0, f0, base);
    f1 := f';
    EntryCtx(code, s);
  }

  /** Whatever the run, the value of an expression that is emitted twice does not have the result type. */
  lemma TailType(f: Function, args: seq<Value>, base: nat, fuel: nat, mid: State)
    requires EmitFunction(f).Ok? && Typed(f.params, args) && DoublesTail(f) && Final(f).Eval?
    requires EvalStmts(Front(f), EntryState(f, args, base, true), fuel) == Res(Done, mid)
    ensures var v := EvalExpr(Final(f).e, mid, fuel); v.out.Yield? ==> !HasType(v.out.v, f.ret)
  {
    hide EmitFunction, LowerBody, Good, Sim, Ctx, Within, EvalStmts, EvalExpr, HasType, DoublesTail, TwiceIn, Entry, ParamScope;
    var f1 := AtEntry(f, args, base);
    DoubledTwice(f);
    TailValue(EmitFunction(f).value, Entry(f), f.body, EntryScope(f.params, args, base), mid, fuel, f1, base);
  }

  lemma DoubledTwice(f: Function)
    requires DoublesTail(f) && LowerBody(Entry(f), f.body).Ok?
    ensures f.body != [] && TwiceIn(Entry(f), f.body)
  {
    hide EmitStmts, EmitExpr, EmitStmt, Good;
    EntrySound(f);
    var s1 := LowerForm(Entry(f), f.body);
    StmtsGood(Entry(f), f.body[..|f.body| - 1]);
    SameFields(Entry(f), s1);
  }

  /** In the language such a run ends in the trap for a missing return. */
  lemma DoubledMeaning(f: Function, args: seq<Value>, base: nat, fuel: nat, mid: State, st: State)
    requires EmitFunction(f).Ok? && Typed(f.params, args) && DoublesTail(f) && ComesToEnd(f, args, base, fuel, mid, st)
    ensures RunFunction(f, args, base, fuel) == Res(Trapped(NoReturn), st)
  {
    EndsWithMore(f, args, base, fuel, mid, st, fuel);
    hide EmitFunction, Typed, EvalStmts, EvalExpr;
    var last, st0 := Final(f), EntryState(f, args, base, false);
    assert EvalTailStmts(f.body, st0, fuel) == EvalTail(last, mid, fuel);
    if last.Eval? {
      TailType(f, args, base, fuel, WithWrap(mid));
      WrapExpr(last.e, mid, fuel);
      TailOfExpr(last, mid, fuel);
    }
    hide DoublesTail, EvalTailStmts;
  }

  /** For every function with a doubled end and every run that comes to that end: the code does what the body does if and
      only if running the last statement once more from there ends too and prints nothing. */
  lemma DoubledIff(f: Function, args: seq<Value>, base: nat, fuel: nat, mid: State, st: State)
    requires EmitFunction(f).Ok? && Typed(f.params, args) && DoublesTail(f) && ComesToEnd(f, args, base, fuel, mid, st)
    requires forall more: nat :: EvalStmt(Final(f), WithWrap(st), more).out != Undef
    ensures Behaves(EmitFunction(f).value, Running(EntryFrame(args, base)), RunFunction(f, args, base, fuel), base, fuel) <==>
            exists more: nat :: QuietAgain(f, st, more)
  {
    DoubledMeaning(f, args, base, fuel, mid, st);
    hide EmitFunction, Typed, DoublesTail, RunFunction, RunEmitted, ComesToEnd, QuietAgain, Runs;
    var code, c, once := EmitFunction(f).value, Running(EntryFrame(args, base)), Aborted(NoReturn, st.log);
    if more: nat :| QuietAgain(f, st, more) {
      QuietReaches(f, args, base, fuel, mid, st, more);
    }
    if m: nat :| Runs(code, c, m, once) {
      ReachesQuiet(f, args, base, fuel, mid, st, m);
    }
  }

  /** The last statement, run once more, ends and prints nothing. */
  predicate QuietAgain(f: Function, st: State, more: nat)
    requires f.body != []
  {
    var r := EvalStmt(Final(f), WithWrap(st), more);
    r.out == Done && r.st.log == st.log
  }

  lemma QuietReaches(f: Function, args: seq<Value>, base: nat, fuel: nat, mid: State, st: State, more: nat)
    requires EmitFunction(f).Ok? && Typed(f.params, args) && DoublesTail(f) && ComesToEnd(f, args, base, fuel, mid, st)
    requires QuietAgain(f, st, more)
    ensures Reaches(EmitFunction(f).value, Running(EntryFrame(args, base)), Aborted(NoReturn, st.log))
  {
    var k := if more > fuel then more else fuel;
    EmittedRuns(f, args, base, k);
    DoubledRun(f, args, base, fuel, mid, st, k);
    hide EvalStmt, EmitFunction, Typed, RunEmitted, Reaches, ComesToEnd;
    MoreStmt(Final(f), WithWrap(st), more, k);
    assert f.ret != Void;
  }

  lemma ReachesQuiet(f: Function, args: seq<Value>, base: nat, fuel: nat, mid: State, st: State, m: nat)
    requires EmitFunction(f).Ok? && Typed(f.params, args) && DoublesTail(f) && ComesToEnd(f, args, base, fuel, mid, st)
    requires forall more: nat :: EvalStmt(Final(f), WithWrap(st), more).out != Undef
    requires Runs(EmitFunction(f).value, Running(EntryFrame(args, base)), m, Aborted(NoReturn, st.log))
    ensures exists more: nat :: QuietAgain(f, st, more)
  {
    var k := if m > fuel then m else fuel;
    EmittedRuns(f, args, base, k);
    DoubledRun(f, args, base, fuel, mid, st, k);
    MoreStmt(Final(f), WithWrap(st), k, k);
    assert f.ret != Void;
    hide EvalStmt, EmitFunction, Typed, RunEmitted, ComesToEnd, DoublesTail, Runs;
    var code, c := EmitFunction(f).value, Running(EntryFrame(args, base));
    var r := EvalStmt(Final(f), WithWrap(st), k);
    AbortedOnly(code, c, m, st.log, FallOff(f.ret, r), base, k);
    assert QuietAgain(f, st, k);
  }

  /** Code that stops at the trap for a missing return behaves like no other evaluation. */
  lemma AbortedOnly(code: Code, c: Config, m: nat, log: seq<Event>, r: Res, base: nat, fuel: nat)
    requires Runs(code, c, m, Aborted(NoReturn, log)) && Behaves(code, c, r, base, fuel) && m <= fuel && r.out != Undef
    ensures r.out == Trapped(NoReturn) && r.st.log == log
  {
    hide Runs;
    match r.out {
      case Returned(vs) =>
        var n: nat :| Runs(code, c, n, Finished(vs, base, r.st.log));
        OneEnd(code, c, m, Aborted(NoReturn, log), n, Finished(vs, base, r.st.log));
      case Trapped(kind) =>
        var n: nat :| Runs(code, c, n, Aborted(kind, r.st.log));
        OneEnd(code, c, m, Aborted(NoReturn, log), n, Aborted(kind, r.st.log));
      case Timeout =>
        var n: nat, f :| n >= fuel && Runs(code, c, n, Running(f)) && f.log == r.st.log;
        OneEnd(code, c, m, Aborted(NoReturn, log), n, Running(f));
      case _ =>
    }
  }

  /** A function with a result type whose body ends in a `print` prints that text once and traps; its emitted code prints
      it twice. The two agree exactly when the text is empty. */
  lemma PrintTailTwice(f: Function, args: seq<Value>, base: nat, fuel: nat, pre: seq<Stmt>, t: string)
    requires EmitFunction(f).Ok? && Typed(f.params, args) && f.ret != Void && f.body == pre + [Print([Text(t)])]
    requires var r := EvalStmts(pre, EntryState(f, args, base, false), fuel); r.out == Done && r.st.top != Passed
    ensures var log := EvalStmts(pre, EntryState(f, args, base, false), fuel).st.log;
            var code, c := EmitFunction(f).value, Running(EntryFrame(args, base));
            && RunFunction(f, args, base, fuel).out == Trapped(NoReturn)
            && RunFunction(f, args, base, fuel).st.log == log + TextOutput(t)
            && Reaches(code, c, Aborted(NoReturn, log + TextOutput(t) + TextOutput(t)))
            && (Reaches(code, c, Aborted(NoReturn, log + TextOutput(t))) <==> t == "")
  {
    EmittedRuns(f, args, base, fuel);
    PrintRuns(f, args, base, fuel, pre, t);
    hide EmitFunction, EvalStmts, Typed, Runs, RunFunction, RunEmitted;
    var st := EvalStmts(pre, EntryState(f, args, base, false), fuel).st;
    var code, c := EmitFunction(f).value, Running(EntryFrame(args, base));
    var twice := Aborted(NoReturn, st.log + TextOutput(t) + TextOutput(t));
    var once := Aborted(NoReturn, st.log + TextOutput(t));
    if t == "" {
      assert twice == once;
    } else if Reaches(code, c, once) {
      assert |once.log| < |twice.log|;
      var m: nat :| Runs(code, c, m, once);
      var n: nat :| Runs(code, c, n, twice);
      OneEnd(code, c, m, once, n, twice);
    }
  }

  /** `fn f() -> i64 { print "x" }` is such a function. */
  lemma PrintsTwice()
    ensures var f := Function([], I64, [Print([Text("x")])]);
            && EmitFunction(f).Ok? && RunFunction(f, [], 0, 0) == Res(Trapped(NoReturn), State([map[]], [PrintedText("x")], 0, false, Below))
            && Reaches(EmitFunction(f).value, Running(EntryFrame([], 0)), Aborted(NoReturn, [PrintedText("x"), PrintedText("x")]))
  {
    var f := Function([], I64, [Print([Text("x")])]);
    var s := EMPTY_EM.(ret := I64);
    assert f.body[..0] == [] && [Text("x")][1..] == [];
    assert EmitStmt(s, f.body[0]).Ok?;
    var s1 := EmitStmt(s, f.body[0]).value;
    assert EmitStmt(s1, f.body[0]).Ok?;
    assert f.body == [] + [Print([Text("x")])];
    PrintTailTwice(f, [], 0, 0, [], "x");
    EvalPrintText("x", EntryState(f, [], 0, false), 0);
    assert [] + TextOutput("x") == [PrintedText("x")];
    assert [PrintedText("x")] + TextOutput("x") == [PrintedText("x"), PrintedText("x")];
  }

  // ---------------------------------------------------------------- the value of the last statement, dropped

  /** A function whose body ends in a statement with a value of the result type returns that value; its emitted code traps
      with the same output and never returns. */
  lemma ValueLost(f: Function, args: seq<Value>, base: nat, fuel: nat)
    requires EmitFunction(f).Ok? && Typed(f.params, args) && LosesValue(f, args, base, fuel)
    requires RunFunction(f, args, base, fuel).st.top != Passed
    ensures var r := RunFunction(f, args, base, fuel);
            var code, c := EmitFunction(f).value, Running(EntryFrame(args, base));
            && r.out == Returned([EvalTailStmts(f.body, EntryState(f, args, base, false), fuel).out.v])
            && Reaches(code, c, Aborted(NoReturn, r.st.log))
            && forall vs, open, log :: !Reaches(code, c, Finished(vs, open, log))
  {
    EmittedRuns(f, args, base, fuel);
    LostIsOnce(f, args, base, fuel);
    RunsCompared(f, args, base, fuel);
    LostReturned(f, args, base, fuel);
    hide EmitFunction, EvalTailStmts, LosesValue, Typed, Runs, RunEmitted, DoublesTail, EvalBody;
    var code, c := EmitFunction(f).value, Running(EntryFrame(args, base));
    var trap := Aborted(NoReturn, RunFunction(f, args, base, fuel).st.log);
    forall vs, open, log
      ensures !Reaches(code, c, Finished(vs, open, log))
    {
      if Reaches(code, c, Finished(vs, open, log)) {
        var m: nat :| Runs(code, c, m, trap);
        var n: nat :| Runs(code, c, n, Finished(vs, open, log));
        OneEnd(code, c, m, trap, n, Finished(vs, open, log));
      }
    }
  }

  lemma LostIsOnce(f: Function, args: seq<Value>, open: nat, fuel: nat)
    requires |f.params| == |args| && LosesValue(f, args, open, fuel)
    ensures !DoublesTail(f)
  {
    hide EvalExpr;
    CarriedValue(f, args, open, fuel);
  }

  /** For a function without a doubled end, and a run in which no inclusive loop passes the largest integer, the emitted
      code does what the body does if and only if the last statement loses no value. */
  lemma BehavesIff(f: Function, args: seq<Value>, base: nat, fuel: nat)
    requires EmitFunction(f).Ok? && Typed(f.params, args) && !DoublesTail(f) && RunFunction(f, args, base, fuel).st.top != Passed
    ensures Behaves(EmitFunction(f).value, Running(EntryFrame(args, base)), RunFunction(f, args, base, fuel), base, fuel)
            <==> !LosesValue(f, args, base, fuel)
  {
    if LosesValue(f, args, base, fuel) {
      ValueLost(f, args, base, fuel);
      hide EmitFunction, LosesValue, Typed, RunFunction;
    } else {
      EmittedRuns(f, args, base, fuel);
      RunsCompared(f, args, base, fuel);
      hide EmitFunction, LosesValue, RunFunction, RunEmitted;
    }
  }

  const C := Name("c")

  /** `fn f(c: bool) -> i64 { if c { 1 } else { 2 } }` */
  function Choice(): Function {
    Function([(C, I1)], I64, [If(Arm(Var(C), Block([Eval(IntLit(1))]), Else(Block([Eval(IntLit(2))]))))])
  }

  /** Such a function returns 1 or 2, and its emitted code traps. */
  lemma ChoiceLost(c: bool)
    ensures EmitFunction(Choice()).Ok?
    ensures RunFunction(Choice(), [BoolV(c)], 0, 0).out == Returned([IntV(if c then 1 else 2)])
    ensures Reaches(EmitFunction(Choice()).value, Running(EntryFrame([BoolV(c)], 0)), Aborted(NoReturn, []))
  {
    ChoiceCompiles();
    ChoiceValue(c);
    hide EmitFunction, EvalTailStmts;
    ValueLost(Choice(), [BoolV(c)], 0, 0);
  }

  lemma ChoiceCompiles()
    ensures EmitFunction(Choice()).Ok?
  {
    var f := Choice();
    var s := Entry(f);
    assert f.body[..0] == [];
    assert FindLocal(s.scopes, C).Some?;
    hide Instr, Begin, Terminate, Entry;
    var one, two: seq<Stmt> := [Eval(IntLit(1))], [Eval(IntLit(2))];
    forall t: Em
      ensures EmitBlock(t, one).Ok? && EmitBlock(t, two).Ok?
    {
      assert one[1..] == [] && two[1..] == [];
    }
    assert EmitStmt(s, f.body[0]).Ok?;
    assert !IsExprStmt(f.body[0]);
  }

  lemma ChoiceValue(c: bool)
    ensures LosesValue(Choice(), [BoolV(c)], 0, 0)
    ensures var r := EvalTailStmts(Choice().body, EntryState(Choice(), [BoolV(c)], 0, false), 0);
            r.out == Yield(IntV(if c then 1 else 2)) && r.st.log == [] && r.st.top == Below
  {
    var f, st := Choice(), EntryState(Choice(), [BoolV(c)], 0, false);
    assert f.body[..0] == [];
    ChoiceEntry(c);
    forall n: i64
      ensures EvalTailBlock([Eval(IntLit(n))], st, 0).out == Yield(IntV(n)) && EvalTailBlock([Eval(IntLit(n))], st, 0).st == st
    {
      LiteralBlock(n, st);
    }
    hide EvalTailBlock;
    assert EvalTailStmts(f.body, st, 0) == EvalTail(f.body[0], st, 0);
  }

  lemma ChoiceEntry(c: bool)
    ensures EvalExpr(Var(C), EntryState(Choice(), [BoolV(c)], 0, false), 0) == Res(Yield(BoolV(c)), EntryState(Choice(), [BoolV(c)], 0, false))
  {
    var st := EntryState(Choice(), [BoolV(c)], 0, false);
    var params, args: seq<Value> := Choice().params, [BoolV(c)];
    assert params[|params| - 1] == (C, I1) && args[|args| - 1] == BoolV(c);
    var scope := ParamScope(params, args);
    assert C in scope && scope[C] == BoolV(c);
    assert st.env == [scope];
    assert C in st.env[0];
    assert Bound(st.env, C) && Lookup(st.env, C) == BoolV(c);
  }

  lemma LiteralBlock(n: i64, st: State)
    ensures EvalTailBlock([Eval(IntLit(n))], st, 0) == Res(Yield(IntV(n)), st)
  {
    var body: seq<Stmt> := [Eval(IntLit(n))];
    var st1 := Push(st, map[]);
    assert body[..0] == [];
    assert EvalTailStmts(body, st1, 0) == Res(Yield(IntV(n)), st1);
    assert st1.env[..|st1.env| - 1] == st.env;
  }
}
