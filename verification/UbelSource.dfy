/** Direct evaluation of Ubel function bodies: what the emitted code is measured against. The operators are exact on
    64-bit integers, unlike the interpreter's (InterpOps). */
module UbelSource {
  import opened UbelSyntax

  /** What a running program does that can be observed from outside. */
  datatype Event =
    | PrintedInt(n: i64)
    | PrintedBool(b: bool)
    | PrintedText(s: string)
    | ArenaOpened(id: nat, size: i64)
    | ArenaClosed(id: nat)

  type Scope = map<Name, Value>

  /** Whether an inclusive `for` whose limit is the largest integer has been entered, and whether its body has come to
      its end, or to a `continue`, for that integer. */
  datatype Top = Below | Entered | Passed

  /** Scopes (innermost last), the events so far, and how many arenas are open. With `wraps`, the counter of a loop goes
      on at the smallest integer after the largest one; in the language itself such a loop ends. */
  datatype State = State(env: seq<Scope>, log: seq<Event>, open: nat, wraps: bool, top: Top)

  datatype TrapKind = DivZero | NoReturn

  /** How an evaluation ended. `Undef` stands for the operations without a defined result; `Timeout` means that the fuel
      ran out. */
  datatype Outcome =
    | Done
    | Yield(v: Value)
    | Broke
    | Continued
    | Returned(result: seq<Value>)
    | Trapped(kind: TrapKind)
    | Undef
    | Wrong
    | Timeout

  datatype Res = Res(out: Outcome, st: State)

  // ---------------------------------------------------------------- scopes

  predicate Bound(env: seq<Scope>, x: Name) {
    exists k :: 0 <= k < |env| && x in env[k]
  }

  function Lookup(env: seq<Scope>, x: Name): Value
    requires Bound(env, x)
  {
    var k := |env| - 1;
    if x in env[k] then env[k][x] else Lookup(env[..k], x)
  }

  /** Replaces the innermost binding. */
  function Update(env: seq<Scope>, x: Name, v: Value): (r: seq<Scope>)
    requires Bound(env, x)
    ensures |r| == |env|
  {
    var k := |env| - 1;
    if x in env[k] then env[k := env[k][x := v]] else Update(env[..k], x, v) + [env[k]]
  }

  function Declare(env: seq<Scope>, x: Name, v: Value): (r: seq<Scope>)
    requires |env| > 0
    ensures |r| == |env|
  {
    env[|env| - 1 := env[|env| - 1][x := v]]
  }

  function Push(st: State, scope: Scope): State {
    st.(env := st.env + [scope])
  }

  /** Leaves the innermost scope, however the evaluation ended. */
  function Pop(r: Res): Res {
    if |r.st.env| == 0 then r else r.(st := r.st.(env := r.st.env[..|r.st.env| - 1]))
  }

  function Emit(st: State, e: Event): State {
    st.(log := st.log + [e])
  }

  // ---------------------------------------------------------------- expressions

  function OfOp(r: OpResult, st: State): Res {
    match r
    case Produces(v) => Res(Yield(v), st)
    case DivisionByZero => Res(Trapped(DivZero), st)
    case Undefined => Res(Undef, st)
    case IllTyped => Res(Wrong, st)
  }

  function EvalExpr(e: Expr, st: State, fuel: nat): (q: Res)
    ensures q.st.wraps == st.wraps
    decreases fuel, e, 0
  {
    match e
    case IntLit(n) => Res(Yield(IntV(n)), st)
    case BoolLit(b) => Res(Yield(BoolV(b)), st)
    case Var(x) => if Bound(st.env, x) then Res(Yield(Lookup(st.env, x)), st) else Res(Wrong, st)
    case Unary(op, e1) =>
      var r := EvalExpr(e1, st, fuel);
      if !r.out.Yield? then r else OfOp(OperateUnary(op, r.out.v), r.st)
    case Binary(op, lhs, rhs) =>
      var l := EvalExpr(lhs, st, fuel);
      if !l.out.Yield? then l
      else
        var r := EvalExpr(rhs, l.st, fuel);
        if !r.out.Yield? then r else OfOp(Operate(op, l.out.v, r.out.v), r.st)
    case Logic(isAnd, lhs, rhs) =>
      var l := EvalExpr(lhs, st, fuel);
      if !l.out.Yield? then l
      else if !l.out.v.BoolV? then Res(Wrong, l.st)
      else if l.out.v.b != isAnd then l
      else
        var r := EvalExpr(rhs, l.st, fuel);
        if r.out.Yield? && !r.out.v.BoolV? then Res(Wrong, r.st) else r
    case IfValue(arms) => EvalValueArms(arms, st, fuel)
  }

  function EvalValueArms(arms: ValueArms, st: State, fuel: nat): (q: Res)
    ensures q.st.wraps == st.wraps
    decreases fuel, arms, 0
  {
    match arms
    case ValueElse(last) => EvalValueBranch(last, st, fuel)
    case ValueArm(cond, branch, others) =>
      var c := EvalExpr(cond, st, fuel);
      if !c.out.Yield? then c
      else if !c.out.v.BoolV? then Res(Wrong, c.st)
      else if c.out.v.b then EvalValueBranch(branch, c.st, fuel)
      else EvalValueArms(others, c.st, fuel)
  }

  function EvalValueBranch(b: ValueBranch, st: State, fuel: nat): (q: Res)
    ensures q.st.wraps == st.wraps
    decreases fuel, b, 0
  {
    match b
    case ValueExpr(e) => EvalExpr(e, st, fuel)
    case ValueBlock(stmts, e) =>
      var r := EvalStmts(stmts, Push(st, map[]), fuel);
      Pop(if r.out != Done then r else EvalExpr(e, r.st, fuel))
  }

  // ---------------------------------------------------------------- statements

  function EvalStmts(stmts: seq<Stmt>, st: State, fuel: nat): (q: Res)
    ensures !q.out.Yield? && q.st.wraps == st.wraps
    decreases fuel, stmts, 0
  {
    if stmts == [] then Res(Done, st)
    else
      var r := EvalStmt(stmts[0], st, fuel);
      if r.out != Done then r else EvalStmts(stmts[1..], r.st, fuel)
  }

  function EvalBlock(stmts: seq<Stmt>, st: State, fuel: nat): (q: Res)
    ensures !q.out.Yield? && q.st.wraps == st.wraps
    decreases fuel, stmts, 1
  {
    Pop(EvalStmts(stmts, Push(st, map[]), fuel))
  }

  function EvalStmt(s: Stmt, st: State, fuel: nat): (q: Res)
    ensures !q.out.Yield? && q.st.wraps == st.wraps
    decreases fuel, s, 1
  {
    match s
    case Let(x, e) =>
      var r := EvalExpr(e, st, fuel);
      if !r.out.Yield? then r
      else if r.st.env == [] then Res(Wrong, r.st)
      else Res(Done, r.st.(env := Declare(r.st.env, x, r.out.v)))
    case Assign(x, aop, e) => EvalAssign(x, aop, EvalExpr(e, st, fuel))
    case Eval(e) =>
      var r := EvalExpr(e, st, fuel);
      if r.out.Yield? then Res(Done, r.st) else r
    case Print(items) => EvalPrint(items, [], st, fuel)
    case Return(NoResult) => Res(Returned([]), st)
    case Return(Result(e)) =>
      var r := EvalExpr(e, st, fuel);
      if r.out.Yield? then Res(Returned([r.out.v]), r.st) else r
    case If(arms) => EvalArms(arms, st, fuel)
    case While(_, _) => EvalWhile(s, st, fuel)
    case Loop(body) => EvalLoop(body, st, fuel)
    case For(x, inclusive, lo, hi, body) =>
      var l := EvalExpr(lo, st, fuel);
      if !l.out.Yield? then l
      else
        var h := EvalExpr(hi, l.st, fuel);
        if !h.out.Yield? then h
        else if !l.out.v.IntV? || !h.out.v.IntV? then Res(Wrong, h.st)
        else EvalFor(x, inclusive, l.out.v.n, h.out.v.n, body, EnterFor(h.st, inclusive, h.out.v.n), fuel)
    case Break => Res(Broke, st)
    case Continue => Res(Continued, st)
    case With(size, body) =>
      var r := EvalExpr(size, st, fuel);
      if !r.out.Yield? then r
      else if !r.out.v.IntV? then Res(Wrong, r.st)
      else CloseArena(EvalBlock(body, OpenArena(r.st, r.out.v.n), fuel))
  }

  function OpenArena(st: State, size: i64): State {
    Emit(st, ArenaOpened(st.open, size)).(open := st.open + 1)
  }

  /** The arena is destroyed on every way out of its block that goes on running the program. */
  function CloseArena(r: Res): Res {
    if r.st.open == 0 || r.out.Trapped? || r.out == Timeout then r
    else r.(st := Emit(r.st, ArenaClosed(r.st.open - 1)).(open := r.st.open - 1))
  }

  /** The assigned value is computed before a compound assignment reads the variable. */
  function EvalAssign(x: Name, aop: AssignOp, r: Res): (q: Res)
    ensures !q.out.Yield?
  {
    if !r.out.Yield? then r
    else if !Bound(r.st.env, x) then Res(Wrong, r.st)
    else
      match aop
      case Plain => Res(Done, r.st.(env := Update(r.st.env, x, r.out.v)))
      case Compound(op) =>
        var o := OfOp(Operate(op, Lookup(r.st.env, x), r.out.v), r.st);
        if o.out.Yield? then Res(Done, r.st.(env := Update(r.st.env, x, o.out.v))) else o
  }

  /** A printed piece whose value is known. */
  datatype Shown = ShownText(s: string) | ShownValue(v: Value)

  /** Every piece is evaluated before anything is printed. */
  function EvalPrint(items: seq<Item>, shown: seq<Shown>, st: State, fuel: nat): (q: Res)
    ensures !q.out.Yield? && q.st.wraps == st.wraps
    decreases fuel, items, 0
  {
    if items == [] then Res(Done, st.(log := st.log + Output(shown)))
    else
      var r := EvalItem(items[0], st, fuel);
      match r.out
      case Done => EvalPrint(items[1..], shown + [ShownText(items[0].s)], r.st, fuel)
      case Yield(v) => EvalPrint(items[1..], shown + [ShownValue(v)], r.st, fuel)
      case _ => r
  }

  /** A text is done at once; a value is evaluated. */
  function EvalItem(item: Item, st: State, fuel: nat): (r: Res)
    ensures (r.out == Done ==> item.Text? && r.st == st) && r.st.wraps == st.wraps
    decreases fuel, item, 0
  {
    match item
    case Text(s) => Res(Done, st)
    case Piece(e) =>
      var r := EvalExpr(e, st, fuel);
      if r.out == Done then Res(Wrong, r.st) else r
  }

  function Output(shown: seq<Shown>): seq<Event> {
    if shown == [] then [] else OutputOf(shown[0]) + Output(shown[1..])
  }

  function OutputOf(s: Shown): seq<Event> {
    match s
    case ShownText(t) => if t == "" then [] else [PrintedText(t)]
    case ShownValue(IntV(n)) => [PrintedInt(n)]
    case ShownValue(BoolV(b)) => [PrintedBool(b)]
    case ShownValue(ArenaV(_)) => []
  }

  function EvalArms(arms: Arms, st: State, fuel: nat): (q: Res)
    ensures !q.out.Yield? && q.st.wraps == st.wraps
    decreases fuel, arms, 0
  {
    match arms
    case NoElse => Res(Done, st)
    case Else(last) => EvalBranch(last, st, fuel)
    case Arm(cond, branch, others) =>
      var c := EvalExpr(cond, st, fuel);
      if !c.out.Yield? then c
      else if !c.out.v.BoolV? then Res(Wrong, c.st)
      else if c.out.v.b then EvalBranch(branch, c.st, fuel)
      else EvalArms(others, c.st, fuel)
  }

  function EvalBranch(b: Branch, st: State, fuel: nat): (q: Res)
    ensures !q.out.Yield? && q.st.wraps == st.wraps
    decreases fuel, b, 0
  {
    match b
    case Block(stmts) => EvalBlock(stmts, st, fuel)
    case Single(s) => EvalStmt(s, st, fuel)
  }

  /** Fuel bounds the number of times any loop goes round. */
  function EvalWhile(loop: Stmt, st: State, fuel: nat): (q: Res)
    requires loop.While?
    ensures !q.out.Yield? && q.st.wraps == st.wraps
    decreases fuel, loop, 0
  {
    var c := EvalExpr(loop.cond, st, fuel);
    if !c.out.Yield? then c
    else if !c.out.v.BoolV? then Res(Wrong, c.st)
    else if !c.out.v.b then Res(Done, c.st)
    else
      var r := EvalBlock(loop.body, c.st, fuel);
      match r.out
      case Done => if fuel == 0 then Res(Timeout, r.st) else EvalWhile(loop, r.st, fuel - 1)
      case Continued => if fuel == 0 then Res(Timeout, r.st) else EvalWhile(loop, r.st, fuel - 1)
      case Broke => Res(Done, r.st)
      case _ => r
  }

  function EvalLoop(body: seq<Stmt>, st: State, fuel: nat): (q: Res)
    ensures !q.out.Yield? && q.st.wraps == st.wraps
    decreases fuel, body, 2
  {
    var r := EvalBlock(body, st, fuel);
    match r.out
    case Done => if fuel == 0 then Res(Timeout, r.st) else EvalLoop(body, r.st, fuel - 1)
    case Continued => if fuel == 0 then Res(Timeout, r.st) else EvalLoop(body, r.st, fuel - 1)
    case Broke => Res(Done, r.st)
    case _ => r
  }

  /** The loop over the integers from `i` to `hi`. */
  function EvalFor(x: Name, inclusive: bool, i: i64, hi: i64, body: seq<Stmt>, st: State, fuel: nat): (q: Res)
    ensures !q.out.Yield? && q.st.wraps == st.wraps
    decreases fuel, body, 2
  {
    if !(if inclusive then i <= hi else i < hi) then Res(Done, st)
    else
      var r := Pop(EvalStmts(body, Push(st, map[x := IntV(i)]), fuel));
      match r.out
      case Done => NextFor(x, inclusive, i, hi, body, r.st, fuel)
      case Continued => NextFor(x, inclusive, i, hi, body, r.st, fuel)
      case Broke => Res(Done, r.st)
      case _ => r
  }

  function EnterFor(st: State, inclusive: bool, hi: i64): State {
    if inclusive && hi == I64_MAX && st.top == Below then st.(top := Entered) else st
  }

  function LeaveFor(st: State, i: i64): State {
    if i == I64_MAX then st.(top := Passed) else st
  }

  /** What follows the round for `i`. */
  function NextFor(x: Name, inclusive: bool, i: i64, hi: i64, body: seq<Stmt>, st: State, fuel: nat): (q: Res)
    ensures !q.out.Yield? && q.st.wraps == st.wraps
    decreases fuel, body, 1
  {
    var t := LeaveFor(st, i);
    if i == I64_MAX && !st.wraps then Res(Done, t)
    else if fuel == 0 then Res(Timeout, t)
    else EvalFor(x, inclusive, Wrap(i + 1), hi, body, t, fuel - 1)
  }

  // ---------------------------------------------------------------- the value of a block

  /** A statement together with its value: an expression has its own, an `if` that of the branch taken, and an arena
      block that of its body. The other statements have none. */
  function EvalTail(s: Stmt, st: State, fuel: nat): Res
    decreases s, 1
  {
    match s
    case Eval(e) => EvalExpr(e, st, fuel)
    case If(arms) => EvalTailArms(arms, st, fuel)
    case With(size, body) =>
      var r := EvalExpr(size, st, fuel);
      if !r.out.Yield? then r
      else if !r.out.v.IntV? then Res(Wrong, r.st)
      else CloseArena(EvalTailBlock(body, OpenArena(r.st, r.out.v.n), fuel))
    case _ => EvalStmt(s, st, fuel)
  }

  function EvalTailArms(arms: Arms, st: State, fuel: nat): Res
    decreases arms, 0
  {
    match arms
    case NoElse => Res(Done, st)
    case Else(last) => EvalTailBranch(last, st, fuel)
    case Arm(cond, branch, others) =>
      var c := EvalExpr(cond, st, fuel);
      if !c.out.Yield? then c
      else if !c.out.v.BoolV? then Res(Wrong, c.st)
      else if c.out.v.b then EvalTailBranch(branch, c.st, fuel)
      else EvalTailArms(others, c.st, fuel)
  }

  function EvalTailBranch(b: Branch, st: State, fuel: nat): Res
    decreases b, 0
  {
    match b
    case Block(stmts) => EvalTailBlock(stmts, st, fuel)
    case Single(s) => EvalTail(s, st, fuel)
  }

  function EvalTailBlock(stmts: seq<Stmt>, st: State, fuel: nat): Res
    decreases stmts, 1
  {
    Pop(EvalTailStmts(stmts, Push(st, map[]), fuel))
  }

  /** The value of a list of statements is that of the last one. */
  function EvalTailStmts(stmts: seq<Stmt>, st: State, fuel: nat): Res
    decreases stmts, 0
  {
    if stmts == [] then Res(Done, st)
    else
      var n := |stmts| - 1;
      var r := EvalStmts(stmts[..n], st, fuel);
      if r.out != Done then r else EvalTail(stmts[n], r.st, fuel)
  }

  // ---------------------------------------------------------------- functions

  /** In a function with a result, the value of the body is the result if it has the result type. */
  function Conclude(ret: Ty, r: Res): Res {
    match r.out
    case Yield(v) => if ret != Void && HasType(v, ret) then Res(Returned([v]), r.st) else Res(Done, r.st)
    case _ => r
  }

  function EvalBody(stmts: seq<Stmt>, ret: Ty, st: State, fuel: nat): Res {
    Conclude(ret, EvalTailStmts(stmts, st, fuel))
  }

  /** Falling off the end returns from a `void` function and traps in any other. */
  function FallOff(ret: Ty, r: Res): Res {
    if r.out == Done then Res(if ret == Void then Returned([]) else Trapped(NoReturn), r.st) else r
  }

  function ParamScope(params: seq<(Name, Ty)>, args: seq<Value>): Scope
    requires |params| == |args|
  {
    if params == [] then map[]
    else ParamScope(params[..|params| - 1], args[..|args| - 1])[params[|params| - 1].0 := args[|args| - 1]]
  }

  /** The state on entry, with `open` arenas open in the callers. */
  function EntryState(f: Function, args: seq<Value>, open: nat, wraps: bool): State
    requires |f.params| == |args|
  {
    State([ParamScope(f.params, args)], [], open, wraps, Below)
  }

  /** Runs a function on its arguments. */
  function RunFunction(f: Function, args: seq<Value>, open: nat, fuel: nat): Res
    requires |f.params| == |args|
  {
    FallOff(f.ret, EvalBody(f.body, f.ret, EntryState(f, args, open, false), fuel))
  }
}
