/** Inclusive loops: their counter in emitted code goes on at the smallest integer after the largest one. */
module EmitLoops {
  import opened Wrappers
  import opened UbelSyntax
  import opened UbelSource
  import opened UbelLaws
  import opened UbelFuel
  import opened BlockCode
  import opened EmitSpec
  import opened EmitStatic
  import opened EmitKeeps
  import opened EmitSim
  import opened EmitSteps
  import opened EmitFlow
  import opened EmitCorrect
  import opened EmitProgram
  import opened EmitResults

  // ---------------------------------------------------------------- rounds

  /** The round of a loop for `i`. */
  function Round(x: Name, i: i64, body: seq<Stmt>, st: State, fuel: nat): (r: Res)
    ensures !r.out.Yield? && r.st.wraps == st.wraps
  {
    Pop(EvalStmts(body, Push(st, map[x := IntV(i)]), fuel))
  }

  /** The body has come to its end or to a `continue`. */
  predicate Fell(r: Res) {
    r.out == Done || r.out == Continued
  }

  /** The state after the rounds from `i` to the largest integer, if the body falls through in each of them. */
  function Rounds(x: Name, i: i64, body: seq<Stmt>, st: State, fuel: nat): Option<State>
    decreases I64_MAX - i
  {
    var r := Round(x, i, body, st, fuel);
    if !Fell(r) then None
    else if i == I64_MAX then Some(r.st)
    else Rounds(x, i + 1, body, r.st, fuel)
  }

  lemma MoreRound(x: Name, i: i64, body: seq<Stmt>, st: State, fuel: nat, more: nat)
    requires fuel <= more
    ensures Settled(Round(x, i, body, st, fuel), Round(x, i, body, st, more))
  {
    hide EvalStmts;
    MoreStmts(body, Push(st, map[x := IntV(i)]), fuel, more);
  }

  lemma ForStep1(x: Name, i: i64, hi: i64, body: seq<Stmt>, st: State, fuel: nat)
    requires i <= hi
    ensures var r := Round(x, i, body, st, fuel);
            EvalFor(x, true, i, hi, body, st, fuel) ==
              if Fell(r) then NextFor(x, true, i, hi, body, r.st, fuel) else if r.out == Broke then Res(Done, r.st) else r
  {
    hide EvalStmts, NextFor;
  }

  // ---------------------------------------------------------------- past the largest integer

  /** In the language the loop ends after these rounds. */
  lemma {:induction false} RoundsReturn(x: Name, i: i64, body: seq<Stmt>, st: State, fuel: nat, more: nat)
    requires Rounds(x, i, body, st, fuel).Some? && !st.wraps && more >= fuel + I64_MAX - i
    ensures EvalFor(x, true, i, I64_MAX, body, st, more) == Res(Done, LeaveFor(Rounds(x, i, body, st, fuel).value, I64_MAX))
    decreases I64_MAX - i
  {
    hide Round;
    ForStep1(x, i, I64_MAX, body, st, more);
    MoreRound(x, i, body, st, fuel, more);
    if i < I64_MAX {
      RoundsReturn(x, i + 1, body, Round(x, i, body, st, fuel).st, fuel, more - 1);
      hide EvalFor;
    }
  }

  /** In emitted code, a round that falls through is followed by the test of the next one. */
  lemma RoundToTest(code: Code, s: Em, x: Name, lo: Operand, hi: Operand, body: seq<Stmt>, y: ForStates,
                    i: i64, limit: i64, st: State, fuel: nat, f: Frame, base: nat)
    returns (n: nat, f': Frame)
    requires ForSteps(s, x, true, lo, hi, body, y) && ForSound(s, y) && ForInner(y) && ForShape(code, s, lo, hi, y) && Ctx(code, s)
    requires Sim(y.cond, st, f, base) && Counting(s, f, i, limit) && i <= limit
    requires Fell(Round(x, i, body, st, fuel))
    ensures Runs(code, Running(f), n, Running(f')) && n > 0
    ensures Sim(y.cond, Round(x, i, body, st, fuel).st, f', base) && Counting(s, f', Wrap(i + 1), limit)
  {
    hide EmitFor, Good, Terminate, Begin, Instr, ForTest, ForBody, ForStep, PushLoop, PopScope, PushScope, Within, Ctx, EvalStmts, Pop;
    hide ForSteps, ForSound, ForInner, ForShape, LoopPlaces, LoopRound, Lands, Keeps, Sim, Counting, Runs, NewLabels, Wrap;
    ForTopFacts(s, x, true, lo, hi, body, y);
    ForStepFacts(code, s, x, true, lo, hi, body, y);
    var f0 := SimForHead(code, s, true, lo, hi, y, i, limit, st, f, base);
    var m, c := SimForRound(code, s, x, true, lo, hi, body, y, i, limit, st, fuel, f0, base);
    var r := Round(x, i, body, st, fuel);
    RoundBack(code, s, y.top, y.inc, y.e, f, 4, f0, r, c, base, fuel, m);
    RoundKeeps(code, y.top, y.inc, y.e, f0, r, c, base, fuel, m);
    CountingKept(s, y.top, f0, c.f, i, limit);
    var f1 := c.f;
    var f2 := SimForStep(code, s, y.inc, i, limit, r.st, f1, base);
    f' := SimForBr(code, s, y.step, 0, y.s1.lbl + 1, y.cond, r.st, f2, base);
    CountingSame(s, f2, f', Wrap(i + 1), limit);
    RunsTrans(code, Running(f), 4 + m, Running(f1), 3, Running(f2));
    RunsTrans(code, Running(f), m + 7, Running(f2), 1, Running(f'));
    n := m + 8;
  }

  lemma {:induction false} RoundsToTest(code: Code, s: Em, x: Name, lo: Operand, hi: Operand, body: seq<Stmt>, y: ForStates,
                                        i: i64, st: State, fuel: nat, f: Frame, base: nat)
    returns (n: nat, f': Frame)
    requires ForSteps(s, x, true, lo, hi, body, y) && ForSound(s, y) && ForInner(y) && ForShape(code, s, lo, hi, y) && Ctx(code, s)
    requires Sim(y.cond, st, f, base) && Counting(s, f, i, I64_MAX) && Rounds(x, i, body, st, fuel).Some?
    ensures Runs(code, Running(f), n, Running(f')) && n > 0
    ensures Sim(y.cond, Rounds(x, i, body, st, fuel).value, f', base) && Counting(s, f', I64_MIN, I64_MAX)
    decreases I64_MAX - i
  {
    hide ForSteps, ForSound, ForInner, ForShape, Ctx, Sim, Counting, Runs, Round;
    n, f' := RoundToTest(code, s, x, lo, hi, body, y, i, I64_MAX, st, fuel, f, base);
    if i < I64_MAX {
      var m, f1 := n, f';
      assert Wrap(i + 1) == i + 1;
      n, f' := RoundsToTest(code, s, x, lo, hi, body, y, i + 1, Round(x, i, body, st, fuel).st, fuel, f1, base);
      RunsTrans(code, Running(f), m, Running(f1), n, Running(f'));
      n := m + n;
    } else {
      assert Wrap(I64_MAX + 1) == I64_MIN;
    }
  }

  /** The machine is at the test of the emitted loop, with this counter and limit. */
  ghost predicate AtTest(s: Em, x: Name, lo: Operand, hi: Operand, body: seq<Stmt>, st: State, f: Frame, base: nat, i: i64, limit: i64) {
    exists y: ForStates :: ForSteps(s, x, true, lo, hi, body, y) && Sim(y.cond, st, f, base) && Counting(s, f, i, limit)
  }

  /** Every emitted inclusive loop that is entered with the largest integer as its limit and whose body falls through up to
      that integer goes on at its test with the smallest one, although the loop ends there in the language. */
  lemma PassesToSmallest(code: Code, s: Em, x: Name, lo: Operand, hi: Operand, body: seq<Stmt>, i: i64, st: State, fuel: nat,
                         f: Frame, base: nat)
    returns (n: nat, f': Frame)
    requires Good(s, s) && EmitFor(s, x, true, lo, hi, body).Ok? && Sim(s, st, f, base) && Ctx(code, s)
    requires Within(EmitFor(s, x, true, lo, hi, body).value, code)
    requires Readable(f, lo) && Read(f, lo) == IntV(i) && Readable(f, hi) && Read(f, hi) == IntV(I64_MAX)
    requires Rounds(x, i, body, st, fuel).Some?
    ensures Runs(code, Running(f), n, Running(f')) && n > 0
    ensures AtTest(s, x, lo, hi, body, Rounds(x, i, body, st, fuel).value, f', base, I64_MIN, I64_MAX)
  {
    hide EmitStmts, EmitFor, Good, Terminate, Begin, Instr, ForTest, ForBody, ForStep, Within, Ctx, Runs;
    hide ForSteps, ForSound, ForInner, ForShape, LoopPlaces, Keeps, Sim, Counting, Rounds, Readable, Read;
    var y := ForForm(s, x, true, lo, hi, body);
    ForStays(s, x, true, lo, hi, body, y);
    CtxLabels(code, s);
    ForEnd(s, x, true, lo, hi, body, y);
    ForPlaces(code, s, x, true, lo, hi, body, y);
    var f1 := SimForEnter(code, s, lo, hi, y, i, I64_MAX, st, f, base);
    n, f' := RoundsToTest(code, s, x, lo, hi, body, y, i, st, fuel, f1, base);
    RunsTrans(code, Running(f), 3, Running(f1), n, Running(f'));
    n := 3 + n;
  }

  // ---------------------------------------------------------------- loops whose body always falls through

  /** Given enough fuel, the body falls through for `i`, and the next round starts in a state of `inv` again. */
  ghost predicate FallsFor(x: Name, body: seq<Stmt>, inv: iset<State>, i: i64, st: State) {
    exists fuel: nat :: Fell(Round(x, i, body, st, fuel)) && LeaveFor(Round(x, i, body, st, fuel).st, i) in inv
  }

  /** In the states of `inv` the body comes to its end or to a `continue`, whatever the counter is. */
  ghost predicate FallsThrough(x: Name, body: seq<Stmt>, inv: iset<State>) {
    forall st, i: i64 :: st in inv ==> FallsFor(x, body, inv, i, st)
  }

  /** What `FallsFor` says, with the fuel. */
  lemma FallsWith(x: Name, body: seq<Stmt>, inv: iset<State>, i: i64, st: State) returns (fuel: nat)
    requires FallsThrough(x, body, inv) && st in inv
    ensures Fell(Round(x, i, body, st, fuel)) && LeaveFor(Round(x, i, body, st, fuel).st, i) in inv
  {
    hide Round, LeaveFor, Fell;
    assert FallsFor(x, body, inv, i, st);
    fuel :| Fell(Round(x, i, body, st, fuel)) && LeaveFor(Round(x, i, body, st, fuel).st, i) in inv;
  }

  /** The loop ends, unless its counter wraps around. */
  lemma {:induction false} RoundsEnd(x: Name, i: i64, hi: i64, body: seq<Stmt>, inv: iset<State>, st: State) returns (fuel: nat)
    requires FallsThrough(x, body, inv) && st in inv && (st.wraps ==> hi < I64_MAX)
    ensures EvalFor(x, true, i, hi, body, st, fuel).out == Done
    decreases hi - i
  {
    hide FallsThrough, Round;
    if i > hi {
      fuel := 0;
    } else {
      var m := FallsWith(x, body, inv, i, st);
      var t := LeaveFor(Round(x, i, body, st, m).st, i);
      if i == I64_MAX {
        fuel := m;
        ForStep1(x, i, hi, body, st, fuel);
      } else {
        var k := RoundsEnd(x, i + 1, hi, body, inv, t);
        fuel := if m > k then m else k + 1;
        MoreRound(x, i, body, st, m, fuel);
        MoreFor(x, true, i + 1, hi, body, t, k, fuel - 1);
        ForStep1(x, i, hi, body, st, fuel);
        NextRoundIs(x, i, hi, body, Round(x, i, body, st, m).st, fuel);
        hide EvalFor, NextFor;
      }
    }
  }

  lemma NextRoundIs(x: Name, i: i64, hi: i64, body: seq<Stmt>, st: State, fuel: nat)
    requires i < I64_MAX && fuel > 0
    ensures NextFor(x, true, i, hi, body, st, fuel) == EvalFor(x, true, i + 1, hi, body, LeaveFor(st, i), fuel - 1)
  {
    hide EvalFor;
    assert Wrap(i + 1) == i + 1;
  }

  /** With counters that wrap around, the loop up to the largest integer does not end. */
  lemma {:induction false} RoundsGoOn(x: Name, i: i64, body: seq<Stmt>, inv: iset<State>, st: State, fuel: nat)
    requires FallsThrough(x, body, inv) && st in inv && st.wraps
    ensures EvalFor(x, true, i, I64_MAX, body, st, fuel).out == Timeout
    decreases fuel
  {
    hide FallsThrough, Round, Wrap;
    var m := FallsWith(x, body, inv, i, st);
    ForStep1(x, i, I64_MAX, body, st, fuel);
    if fuel <= m {
      MoreRound(x, i, body, st, fuel, m);
    } else {
      MoreRound(x, i, body, st, m, fuel);
    }
    if fuel > 0 && Fell(Round(x, i, body, st, fuel)) {
      RoundsGoOn(x, Wrap(i + 1), body, inv, LeaveFor(Round(x, i, body, st, fuel).st, i), fuel - 1);
    }
    hide EvalFor;
  }

  // ---------------------------------------------------------------- functions that end in such a loop

  /** The function ends in the inclusive loop `loop`. */
  predicate EndsInLoop(f: Function, pre: seq<Stmt>, loop: Stmt) {
    f.body == pre + [loop] && loop.For? && loop.inclusive
  }

  /** The run comes to that loop in state `st`, with bounds `lo` and `hi`. */
  ghost predicate ComesToLoop(f: Function, args: seq<Value>, base: nat, pre: seq<Stmt>, loop: Stmt, fuel: nat, lo: i64, hi: i64, st: State)
    requires loop.For?
  {
    && |f.params| == |args|
    && var r := EvalStmts(pre, EntryState(f, args, base, false), fuel);
       var l := EvalExpr(loop.lo, r.st, fuel);
       var h := EvalExpr(loop.hi, l.st, fuel);
       && r.out == Done && l.out == Yield(IntV(lo)) && h.out == Yield(IntV(hi))
       && st == EnterFor(h.st, true, hi) && st.top != Passed
  }

  lemma ForFromBounds(loop: Stmt, st: State, fuel: nat, lo: i64, hi: i64)
    requires loop.For? && loop.inclusive
    requires var l := EvalExpr(loop.lo, st, fuel);
             l.out == Yield(IntV(lo)) && EvalExpr(loop.hi, l.st, fuel).out == Yield(IntV(hi))
    ensures var h := EvalExpr(loop.hi, EvalExpr(loop.lo, st, fuel).st, fuel);
            EvalStmt(loop, st, fuel) == EvalFor(loop.name, true, lo, hi, loop.body, EnterFor(h.st, true, hi), fuel)
  {
    hide EvalExpr, EvalFor, EnterFor;
  }

  /** The run up to the loop, with more fuel. */
  lemma LoopMeaning(f: Function, args: seq<Value>, base: nat, pre: seq<Stmt>, loop: Stmt, fuel: nat, lo: i64, hi: i64, st: State, more: nat)
    requires EndsInLoop(f, pre, loop) && ComesToLoop(f, args, base, pre, loop, fuel, lo, hi, st) && fuel <= more
    ensures RunFunction(f, args, base, more) == FallOff(f.ret, EvalFor(loop.name, true, lo, hi, loop.body, st, more))
  {
    hide EvalStmts, EvalStmt, EvalExpr, EvalFor, EnterFor;
    var st0 := EntryState(f, args, base, false);
    var r := EvalStmts(pre, st0, fuel);
    var l := EvalExpr(loop.lo, r.st, fuel);
    MoreStmts(pre, st0, fuel, more);
    MoreExpr(loop.lo, r.st, fuel, more);
    MoreExpr(loop.hi, l.st, fuel, more);
    ForFromBounds(loop, r.st, more, lo, hi);
    assert f.body[..|f.body| - 1] == pre && f.body[|f.body| - 1] == loop;
    assert EvalTailStmts(f.body, st0, more) == EvalTail(loop, r.st, more) == EvalStmt(loop, r.st, more);
    hide EvalTailStmts;
  }

  lemma LoopEmitted(f: Function, args: seq<Value>, base: nat, pre: seq<Stmt>, loop: Stmt, fuel: nat, lo: i64, hi: i64, st: State, more: nat)
    requires EndsInLoop(f, pre, loop) && ComesToLoop(f, args, base, pre, loop, fuel, lo, hi, st) && fuel <= more
    ensures RunEmitted(f, args, base, more) == FallOff(f.ret, EvalFor(loop.name, true, lo, hi, loop.body, WithWrap(st), more))
  {
    hide EvalStmts, EvalStmt, EvalExpr, EvalFor, EmitStmts, EmitExpr;
    var st0 := EntryState(f, args, base, false);
    var r := EvalStmts(pre, st0, fuel);
    var l := EvalExpr(loop.lo, r.st, fuel);
    var h := EvalExpr(loop.hi, l.st, fuel);
    WrapStmts(pre, st0, fuel);
    WrapExpr(loop.lo, r.st, fuel);
    WrapExpr(loop.hi, l.st, fuel);
    WrapEnter(h.st, true, hi);
    assert r.st.top != Passed && l.st.top != Passed;
    MoreStmts(pre, WithWrap(st0), fuel, more);
    MoreExpr(loop.lo, WithWrap(r.st), fuel, more);
    MoreExpr(loop.hi, WithWrap(l.st), fuel, more);
    ForFromBounds(loop, WithWrap(r.st), more, lo, hi);
    hide EnterFor;
    assert f.body[..|f.body| - 1] == pre && f.body[|f.body| - 1] == loop;
    assert EntryState(f, args, base, true) == WithWrap(st0) && !DoublesTail(f);
  }

  lemma StillRunning(code: Code, c: Config, n: nat, f: Frame, m: nat)
    requires Runs(code, c, n, Running(f)) && m <= n
    ensures Steps(code, c, m).Running?
  {
    if !Steps(code, c, m).Running? {
      OneEnd(code, c, m, Steps(code, c, m), n, Running(f));
    }
  }

  lemma LoopNeverHalts(f: Function, args: seq<Value>, base: nat, pre: seq<Stmt>, loop: Stmt, fuel: nat, lo: i64, st: State,
                       inv: iset<State>, m: nat)
    requires EmitFunction(f).Ok? && Typed(f.params, args) && EndsInLoop(f, pre, loop)
    requires ComesToLoop(f, args, base, pre, loop, fuel, lo, I64_MAX, st)
    requires FallsThrough(loop.name, loop.body, inv) && WithWrap(st) in inv
    ensures Steps(EmitFunction(f).value, Running(EntryFrame(args, base)), m).Running?
  {
    var k := if m > fuel then m else fuel;
    EmittedRuns(f, args, base, k);
    LoopEmitted(f, args, base, pre, loop, fuel, lo, I64_MAX, st, k);
    hide EmitFunction, RunEmitted, EvalFor, Runs, FallsThrough, ComesToLoop, Typed;
    RoundsGoOn(loop.name, lo, loop.body, inv, WithWrap(st), k);
    var code, c0, log := EmitFunction(f).value, Running(EntryFrame(args, base)), RunEmitted(f, args, base, k).st.log;
    var n: nat, g :| n >= k && Runs(code, c0, n, Running(g)) && g.log == log;
    StillRunning(code, c0, n, g, m);
  }

  /** How a body without a value ends. */
  function Ended(ret: Ty): Outcome {
    if ret == Void then Returned([]) else Trapped(NoReturn)
  }

  lemma LoopHalts(f: Function, args: seq<Value>, base: nat, pre: seq<Stmt>, loop: Stmt, fuel: nat, lo: i64, hi: i64, st: State,
                  inv: iset<State>) returns (c: Config)
    requires EmitFunction(f).Ok? && Typed(f.params, args) && EndsInLoop(f, pre, loop)
    requires ComesToLoop(f, args, base, pre, loop, fuel, lo, hi, st) && hi < I64_MAX
    requires FallsThrough(loop.name, loop.body, inv) && WithWrap(st) in inv
    ensures !c.Running? && Reaches(EmitFunction(f).value, Running(EntryFrame(args, base)), c)
  {
    var m := RoundsEnd(loop.name, lo, hi, loop.body, inv, WithWrap(st));
    var k := if m > fuel then m else fuel;
    EmittedRuns(f, args, base, k);
    LoopEmitted(f, args, base, pre, loop, fuel, lo, hi, st, k);
    MoreFor(loop.name, true, lo, hi, loop.body, WithWrap(st), m, k);
    hide EmitFunction, RunEmitted, EvalFor, Reaches, FallsThrough, ComesToLoop, Typed;
    var log := RunEmitted(f, args, base, k).st.log;
    c := if f.ret == Void then Finished([], base, log) else Aborted(NoReturn, log);
  }

  /** In the language such a loop ends, whatever the limit. */
  lemma LoopReturns(f: Function, args: seq<Value>, base: nat, pre: seq<Stmt>, loop: Stmt, fuel: nat, lo: i64, hi: i64, st: State,
                    inv: iset<State>) returns (more: nat)
    requires EndsInLoop(f, pre, loop) && ComesToLoop(f, args, base, pre, loop, fuel, lo, hi, st)
    requires FallsThrough(loop.name, loop.body, inv) && st in inv
    ensures |f.params| == |args| && RunFunction(f, args, base, more).out == Ended(f.ret)
  {
    assert !st.wraps by { hide EvalStmts, EvalExpr; }
    var m := RoundsEnd(loop.name, lo, hi, loop.body, inv, st);
    more := if m > fuel then m else fuel;
    LoopMeaning(f, args, base, pre, loop, fuel, lo, hi, st, more);
    MoreFor(loop.name, true, lo, hi, loop.body, st, m, more);
    hide RunFunction, EvalFor, FallsThrough, EvalStmts, EvalExpr;
  }

  /** The emitted code of the function stops. */
  ghost predicate Stops(f: Function, args: seq<Value>, base: nat)
    requires EmitFunction(f).Ok?
  {
    exists c: Config :: !c.Running? && Reaches(EmitFunction(f).value, Running(EntryFrame(args, base)), c)
  }

  /** Every function that ends in an inclusive loop whose body always falls through, in the states that its rounds come to:
      the code of the function stops if and only if the limit of the loop is not the largest integer, although in the
      language it always does. */
  lemma InclusiveLoopEnds(f: Function, args: seq<Value>, base: nat, pre: seq<Stmt>, loop: Stmt, fuel: nat, lo: i64, hi: i64, st: State,
                          inv: iset<State>)
    requires EmitFunction(f).Ok? && Typed(f.params, args) && EndsInLoop(f, pre, loop)
    requires ComesToLoop(f, args, base, pre, loop, fuel, lo, hi, st)
    requires FallsThrough(loop.name, loop.body, inv) && st in inv && WithWrap(st) in inv
    ensures exists more: nat :: RunFunction(f, args, base, more).out == Ended(f.ret)
    ensures Stops(f, args, base) <==> hi < I64_MAX
  {
    hide EmitFunction, Runs, FallsThrough, RunFunction, ComesToLoop, Typed;
    var more := LoopReturns(f, args, base, pre, loop, fuel, lo, hi, st, inv);
    assert RunFunction(f, args, base, more).out == Ended(f.ret);
    var code, c0 := EmitFunction(f).value, Running(EntryFrame(args, base));
    if hi < I64_MAX {
      var c := LoopHalts(f, args, base, pre, loop, fuel, lo, hi, st, inv);
    } else {
      forall c: Config | !c.Running?
        ensures !Reaches(code, c0, c)
      {
        if n: nat :| Runs(code, c0, n, c) {
          LoopNeverHalts(f, args, base, pre, loop, fuel, lo, st, inv, n);
          RunsIs(code, c0, n, c);
        }
      }
    }
  }

  lemma RunsIs(code: Code, c: Config, n: nat, c': Config)
    requires Runs(code, c, n, c')
    ensures Steps(code, c, n) == c'
  {
  }

  // ---------------------------------------------------------------- such loops

  const I := Name("i")
  const S := Name("s")

  predicate AnyState(st: State) {
    true
  }

  ghost function AllStates(): iset<State> {
    iset st: State | AnyState(st)
  }

  /** The loop variable is a local of the body. */
  lemma LoopLocal(s: Em, x: Name, counter: Slot, inc: Label, end: Label) returns (l: Local)
    ensures l.ty == I64 && ForBody(s, x, counter, inc, end).scopes == s.scopes + [map[x := l]]
  {
    hide Instr;
    var d := DeclareLocal(PushScope(PushLoop(s, inc, end)), x, I64);
    var cur := LoadFrom(d, counter, I64);
    InstrBody(Fresh(d, 1), Load(d.tmp + 1, counter));
    InstrBody(cur.s, Store(cur.v, d.tmp));
    l := Local(d.tmp, I64);
    assert d.scopes == s.scopes + [map[x := l]];
  }

  /** The scopes at the start of the body are those around the loop and one more. */
  lemma HeadScopes(s: Em, lo: Operand, hi: Operand)
    ensures ForHead(Instr(Instr(Fresh(s, 2), Store(lo, s.tmp + 1)), Store(hi, s.tmp + 2)), true, s.tmp + 1, s.tmp + 2).scopes == s.scopes
  {
    InstrBody(Fresh(s, 2), Store(lo, s.tmp + 1));
    var s0 := Instr(Fresh(s, 2), Store(lo, s.tmp + 1));
    InstrBody(s0, Store(hi, s.tmp + 2));
    var s1 := Instr(s0, Store(hi, s.tmp + 2));
    hide Instr;
    var b := Begin(Terminate(NewLabels(s1, 4), Br(s1.lbl + 1)), s1.lbl + 1);
    assert b.scopes == s.scopes;
    var t := ForTest(b, true, s.tmp + 1, s.tmp + 2);
    TestScopes(b, s.tmp + 1, s.tmp + 2);
    hide ForTest;
  }

  lemma TestScopes(s: Em, counter: Slot, limit: Slot)
    ensures ForTest(s, true, counter, limit).s.scopes == s.scopes
  {
    hide Instr;
    var a := LoadFrom(s, counter, I64);
    InstrBody(Fresh(s, 1), Load(s.tmp + 1, counter));
    var b := LoadFrom(a.s, limit, I64);
    InstrBody(Fresh(a.s, 1), Load(a.s.tmp + 1, limit));
    InstrBody(Fresh(b.s, 1), Arith(b.s.tmp + 1, Le, a.v, b.v));
  }

  /** The emitter accepts the body, after the loop variable has been declared. */
  ghost predicate Accepts(scopes: Scopes, body: seq<Stmt>) {
    forall b: Em, l: Local :: l.ty == I64 && b.scopes == scopes + [map[I := l]] ==> EmitStmts(b, body).Ok?
  }

  lemma AcceptsAt(scopes: Scopes, body: seq<Stmt>, b: Em, l: Local)
    requires Accepts(scopes, body) && l.ty == I64 && b.scopes == scopes + [map[I := l]]
    ensures EmitStmts(b, body).Ok?
  {
    hide EmitStmts;
  }

  lemma ForCompiles(s: Em, lo: i64, hi: i64, body: seq<Stmt>)
    requires Accepts(s.scopes, body)
    ensures EmitStmt(s, For(I, true, IntLit(lo), IntLit(hi), body)).Ok?
  {
    hide EmitStmts, ForHead, ForBody, ForTail, Instr, Accepts;
    var l, h := Const(IntV(lo)), Const(IntV(hi));
    HeadScopes(s, l, h);
    var s1 := Instr(Instr(Fresh(s, 2), Store(l, s.tmp + 1)), Store(h, s.tmp + 2));
    var s2 := ForHead(s1, true, s.tmp + 1, s.tmp + 2);
    var local := LoopLocal(s2, I, s.tmp + 1, s1.lbl + 3, s1.lbl + 4);
    AcceptsAt(s.scopes, body, ForBody(s2, I, s.tmp + 1, s1.lbl + 3, s1.lbl + 4), local);
    assert EmitFor(s, I, true, l, h, body).Ok?;
    hide EmitFor;
  }

  /** `fn f() { for i in lo..=hi { body } }` */
  function Counter(lo: i64, hi: i64, body: seq<Stmt>): Function {
    Function([], Void, [For(I, true, IntLit(lo), IntLit(hi), body)])
  }

  lemma CounterEnds(lo: i64, hi: i64, body: seq<Stmt>, base: nat)
    requires EmitFunction(Counter(lo, hi, body)).Ok? && FallsThrough(I, body, AllStates())
    ensures Stops(Counter(lo, hi, body), [], base) <==> hi < I64_MAX
  {
    hide EmitFunction, FallsThrough, Stops;
    var f := Counter(lo, hi, body);
    var loop, st := f.body[0], EnterFor(EntryState(f, [], base, false), true, hi);
    assert f.body == [] + [loop];
    InclusiveLoopEnds(f, [], base, [], loop, 0, lo, hi, st, AllStates());
  }

  /** `for i in lo..=hi {}` */
  lemma EmptyLoopEnds(lo: i64, hi: i64, base: nat)
    ensures EmitFunction(Counter(lo, hi, [])).Ok? && (Stops(Counter(lo, hi, []), [], base) <==> hi < I64_MAX)
  {
    EmptyCompiles(lo, hi);
    forall st: State, i: i64
      ensures FallsFor(I, [], AllStates(), i, st)
    {
      assert Fell(Round(I, i, [], st, 0));
    }
    hide EmitFunction, Stops;
    CounterEnds(lo, hi, [], base);
  }

  lemma EmptyCompiles(lo: i64, hi: i64)
    ensures EmitFunction(Counter(lo, hi, [])).Ok?
  {
    hide Instr, Begin, Terminate, ForHead, ForBody, ForTail;
    var f := Counter(lo, hi, []);
    assert f.body[..0] == [];
    assert EmitStmt(Entry(f), f.body[0]).Ok?;
  }

  const PRINT_I: seq<Stmt> := [Print([Piece(Var(I))])]

  /** `for i in lo..=hi { print i }` */
  lemma PrintLoopEnds(lo: i64, hi: i64, base: nat)
    ensures EmitFunction(Counter(lo, hi, PRINT_I)).Ok? && (Stops(Counter(lo, hi, PRINT_I), [], base) <==> hi < I64_MAX)
  {
    PrintCompiles(lo, hi);
    forall st: State, i: i64
      ensures FallsFor(I, PRINT_I, AllStates(), i, st)
    {
      PrintFalls(i, st);
      assert Fell(Round(I, i, PRINT_I, st, 0));
    }
    hide EmitFunction, Stops;
    CounterEnds(lo, hi, PRINT_I, base);
  }

  lemma OneStmt(stmts: seq<Stmt>, st: State, fuel: nat)
    requires |stmts| == 1
    ensures EvalStmts(stmts, st, fuel) == EvalStmt(stmts[0], st, fuel)
  {
    hide EvalStmt;
    assert stmts[1..] == [];
  }

  lemma PrintFalls(i: i64, st: State)
    ensures Fell(Round(I, i, PRINT_I, st, 0))
  {
    var st1 := Push(st, map[I := IntV(i)]);
    var k := |st1.env| - 1;
    assert I in st1.env[k];
    assert EvalExpr(Var(I), st1, 0) == Res(Yield(IntV(i)), st1);
    var items: seq<Item> := [Piece(Var(I))];
    assert items[1..] == [];
    assert EvalPrint(items, [], st1, 0) == EvalPrint([], [] + [ShownValue(IntV(i))], st1, 0);
    hide EvalPrint;
    assert EvalStmt(PRINT_I[0], st1, 0) == EvalPrint(items, [], st1, 0);
    assert EvalStmt(PRINT_I[0], st1, 0).out == Done;
    hide EvalStmt;
    OneStmt(PRINT_I, st1, 0);
  }

  lemma PrintEmits(b: Em, l: Local)
    requires l.ty == I64 && b.scopes != [] && b.scopes[|b.scopes| - 1] == map[I := l]
    ensures EmitStmts(b, PRINT_I).Ok?
  {
    hide Instr;
    var items: seq<Item> := [Piece(Var(I))];
    assert items[1..] == [] && PRINT_I[1..] == [];
    assert FindLocal(b.scopes, I) == Some(l);
    assert EmitExpr(b, Var(I)).Ok? && EmitExpr(b, Var(I)).value.ty == I64;
    hide EmitExpr, EmitReady;
    assert EmitItem(b, items[0]).Ok?;
    assert EmitPrint(b, items, []).Ok?;
    assert EmitStmt(b, PRINT_I[0]).Ok?;
  }

  lemma PrintCompiles(lo: i64, hi: i64)
    ensures EmitFunction(Counter(lo, hi, PRINT_I)).Ok?
  {
    var f := Counter(lo, hi, PRINT_I);
    assert f.body[..0] == [];
    forall b: Em, l: Local | l.ty == I64 && b.scopes == Entry(f).scopes + [map[I := l]]
      ensures EmitStmts(b, PRINT_I).Ok?
    {
      PrintEmits(b, l);
    }
    assert Accepts(Entry(f).scopes, PRINT_I);
    hide EmitStmts;
    ForCompiles(Entry(f), lo, hi, PRINT_I);
    hide EmitStmt;
    assert EmitStmts(Entry(f), []) == Ok(Entry(f));
  }

  const J := Name("j")

  /** `for j in 0..n {}` */
  function Inner(n: i64): seq<Stmt> {
    [For(J, false, IntLit(0), IntLit(n), [])]
  }

  lemma {:induction false} InnerEnds(j: i64, n: i64, st: State, fuel: nat)
    requires fuel > n - j
    ensures EvalFor(J, false, j, n, [], st, fuel).out == Done
    decreases n - j
  {
    if j < n {
      var t := Pop(EvalStmts([], Push(st, map[J := IntV(j)]), fuel)).st;
      assert Wrap(j + 1) == j + 1;
      InnerEnds(j + 1, n, LeaveFor(t, j), fuel - 1);
    }
  }

  /** A body with a loop of its own falls through as well, given enough fuel. */
  lemma NestedFalls(n: i64)
    ensures FallsThrough(I, Inner(n), AllStates())
  {
    forall st: State, i: i64
      ensures FallsFor(I, Inner(n), AllStates(), i, st)
    {
      var st1, fuel: nat := Push(st, map[I := IntV(i)]), if n < 0 then 1 else n + 1;
      if n >= 0 {
        InnerEnds(0, n, st1, fuel);
      }
      OneStmt(Inner(n), st1, fuel);
      assert Fell(Round(I, i, Inner(n), st, fuel));
    }
  }

  /** `fn f() { let s = 0; for i in lo..=hi { s += i } }` */
  function Summing(lo: i64, hi: i64): Function {
    Function([], Void, [Let(S, IntLit(0)), For(I, true, IntLit(lo), IntLit(hi), SUM_I)])
  }

  const SUM_I: seq<Stmt> := [Assign(S, Compound(Add), Var(I))]

  /** There is one scope, and in it `s` is an integer. */
  ghost predicate HasSum(st: State) {
    |st.env| == 1 && S in st.env[0] && st.env[0][S].IntV?
  }

  ghost function SumStates(): iset<State> {
    iset st: State | HasSum(st)
  }

  lemma SumLoopEnds(lo: i64, hi: i64, base: nat)
    ensures EmitFunction(Summing(lo, hi)).Ok? && (Stops(Summing(lo, hi), [], base) <==> hi < I64_MAX)
  {
    SumCompiles(lo, hi);
    forall st: State, i: i64 | HasSum(st)
      ensures FallsFor(I, SUM_I, SumStates(), i, st)
    {
      SumFalls(i, st);
      assert Fell(Round(I, i, SUM_I, st, 0));
    }
    hide EmitFunction, Stops;
    var f, pre := Summing(lo, hi), [Let(S, IntLit(0))];
    var st0, loop := EntryState(f, [], base, false), f.body[1];
    assert f.body == pre + [loop];
    SumStarts(f, base);
    var st := EnterFor(EvalStmts(pre, st0, 0).st, true, hi);
    InclusiveLoopEnds(f, [], base, pre, loop, 0, lo, hi, st, SumStates());
  }

  lemma SumStarts(f: Function, base: nat)
    requires f.params == []
    ensures var r := EvalStmts([Let(S, IntLit(0))], EntryState(f, [], base, false), 0);
            r.out == Done && HasSum(r.st) && r.st.top == Below && !r.st.wraps
  {
    var pre: seq<Stmt> := [Let(S, IntLit(0))];
    assert pre[1..] == [];
  }

  lemma SumFalls(i: i64, st: State)
    requires HasSum(st)
    ensures Fell(Round(I, i, SUM_I, st, 0)) && HasSum(LeaveFor(Round(I, i, SUM_I, st, 0).st, i))
  {
    var st1 := Push(st, map[I := IntV(i)]);
    SumAdds(i, st, st1.env);
    assert I in st1.env[1] && Bound(st1.env, I);
    assert EvalExpr(Var(I), st1, 0) == Res(Yield(IntV(i)), st1);
    hide EvalExpr, Lookup, Update;
    var r := EvalAssign(S, Compound(Add), Res(Yield(IntV(i)), st1));
    assert r.out == Done && |r.st.env| == 2;
    assert EvalStmt(SUM_I[0], st1, 0) == r;
    hide EvalStmt, EvalAssign;
    OneStmt(SUM_I, st1, 0);
    assert r.st.env[..1][0] == r.st.env[0];
  }

  lemma SumAdds(i: i64, st: State, env: seq<Scope>)
    requires HasSum(st) && env == st.env + [map[I := IntV(i)]]
    ensures Bound(env, S) && Lookup(env, S).IntV?
    ensures forall v: Value :: v.IntV? ==> var e := Update(env, S, v); |e| == 2 && S in e[0] && e[0][S].IntV?
  {
    assert S in env[0] && S !in env[1];
    assert env[..1] == st.env;
    assert Lookup(env, S) == Lookup(st.env, S) == st.env[0][S];
  }

  lemma SumEmits(b: Em, s: Local, l: Local)
    requires s.ty == I64 && l.ty == I64 && b.scopes == [map[S := s], map[I := l]]
    ensures EmitStmts(b, SUM_I).Ok?
  {
    hide Instr;
    assert SUM_I[1..] == [];
    assert b.scopes[..1] == [map[S := s]];
    assert FindLocal(b.scopes[..1], S) == Some(s);
    assert FindLocal(b.scopes, S) == Some(s) && FindLocal(b.scopes, I) == Some(l);
    assert EmitExpr(b, Var(I)).Ok? && EmitExpr(b, Var(I)).value.ty == I64;
    assert EmitStmt(b, SUM_I[0]).Ok?;
  }

  lemma SumCompiles(lo: i64, hi: i64)
    ensures EmitFunction(Summing(lo, hi)).Ok?
  {
    var f := Summing(lo, hi);
    var pre := f.body[..1];
    assert pre == [f.body[0]] && pre[1..] == [];
    assert EmitStmt(Entry(f), f.body[0]).Ok?;
    var s := EmitStmt(Entry(f), f.body[0]).value;
    assert EmitStmts(Entry(f), pre) == Ok(s);
    var sum := SumLocal(f);
    forall b: Em, l: Local | l.ty == I64 && b.scopes == s.scopes + [map[I := l]]
      ensures EmitStmts(b, SUM_I).Ok?
    {
      SumEmits(b, sum, l);
    }
    assert Accepts(s.scopes, SUM_I);
    hide EmitStmts;
    ForCompiles(s, lo, hi, SUM_I);
    hide EmitStmt;
  }

  lemma SumLocal(f: Function) returns (sum: Local)
    requires f.params == []
    ensures var r := EmitStmt(Entry(f), Let(S, IntLit(0)));
            r.Ok? && r.value.scopes == [map[S := sum]] && sum.ty == I64
  {
    sum := EmitStmt(Entry(f), Let(S, IntLit(0))).value.scopes[0][S];
  }
}
