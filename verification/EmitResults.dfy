/** What follows from semantic preservation for runs of emitted functions. */
module EmitResults {
  import opened Wrappers
  import opened UbelSyntax
  import opened UbelSource
  import opened BlockCode
  import opened EmitSpec
  import opened EmitStatic
  import opened EmitKeeps
  import opened EmitSim
  import opened EmitSteps
  import opened EmitFlow
  import opened EmitCorrect
  import opened EmitProgram

  // ---------------------------------------------------------------- runs that have stopped

  predicate Stopped(c: Config) {
    !c.Running?
  }

  lemma {:induction false} StaysStopped(code: Code, c: Config, n: nat)
    requires Stopped(c)
    ensures Steps(code, c, n) == c
    decreases n
  {
    if n > 0 {
      StaysStopped(code, c, n - 1);
    }
  }

  /** A run stops in one way only. */
  lemma OneEnd(code: Code, c: Config, m: nat, a: Config, n: nat, b: Config)
    requires Runs(code, c, m, a) && Runs(code, c, n, b) && Stopped(a)
    ensures if n >= m then b == a else b.Running? || b == a
  {
    if n >= m {
      StepsAdd(code, c, m, n - m);
      StaysStopped(code, a, n - m);
    } else if Stopped(b) {
      StepsAdd(code, c, n, m - n);
      StaysStopped(code, b, m - n);
    }
  }

  predicate Defined(r: Res) {
    r.out != Undef
  }

  /** The emitted code of a function with defined behaviour is never stuck: it never reads an unwritten register or slot,
      divides by zero, destroys an arena that is not the innermost open one, or leaves its blocks. */
  lemma NeverStuck(f: Function, args: seq<Value>, base: nat, n: nat)
    requires EmitFunction(f).Ok? && Typed(f.params, args) && Defined(RunEmitted(f, args, base, n))
    ensures Steps(EmitFunction(f).value, Running(EntryFrame(args, base)), n) != Stuck
  {
    var code, c, r := EmitFunction(f).value, Running(EntryFrame(args, base)), RunEmitted(f, args, base, n);
    EmittedRuns(f, args, base, n);
    hide EmitFunction, RunEmitted, Typed, EntryFrame;
    if Steps(code, c, n) == Stuck {
      assert Runs(code, c, n, Stuck);
      match r.out {
        case Returned(vs) =>
          var m: nat :| Runs(code, c, m, Finished(vs, base, r.st.log));
          OneEnd(code, c, m, Finished(vs, base, r.st.log), n, Stuck);
        case Trapped(kind) =>
          var m: nat :| Runs(code, c, m, Aborted(kind, r.st.log));
          OneEnd(code, c, m, Aborted(kind, r.st.log), n, Stuck);
        case Timeout =>
          var m: nat, g :| m >= n && Runs(code, c, m, Running(g)) && g.log == r.st.log;
          OneEnd(code, c, n, Stuck, m, Running(g));
        case _ =>
      }
    }
  }

  /** Whatever the emitted code returns is what the body returns, with the same output, and the open arenas are those of
      the callers again. */
  lemma OnlyReturns(f: Function, args: seq<Value>, base: nat, n: nat, vs: seq<Value>, open: nat, log: seq<Event>)
    requires EmitFunction(f).Ok? && Typed(f.params, args) && Defined(RunEmitted(f, args, base, n))
    requires Runs(EmitFunction(f).value, Running(EntryFrame(args, base)), n, Finished(vs, open, log))
    ensures var r := RunEmitted(f, args, base, n);
            r.out == Returned(vs) && r.st.log == log && open == base
  {
    var code, c, r := EmitFunction(f).value, Running(EntryFrame(args, base)), RunEmitted(f, args, base, n);
    EmittedRuns(f, args, base, n);
    hide EmitFunction, RunEmitted, Typed, EntryFrame, Runs;
    match r.out {
      case Returned(us) =>
        var m: nat :| Runs(code, c, m, Finished(us, base, r.st.log));
        OneEnd(code, c, m, Finished(us, base, r.st.log), n, Finished(vs, open, log));
        OneEnd(code, c, n, Finished(vs, open, log), m, Finished(us, base, r.st.log));
      case Trapped(kind) =>
        var m: nat :| Runs(code, c, m, Aborted(kind, r.st.log));
        OneEnd(code, c, m, Aborted(kind, r.st.log), n, Finished(vs, open, log));
        OneEnd(code, c, n, Finished(vs, open, log), m, Aborted(kind, r.st.log));
      case Timeout =>
        var m: nat, g :| m >= n && Runs(code, c, m, Running(g)) && g.log == r.st.log;
        OneEnd(code, c, n, Finished(vs, open, log), m, Running(g));
      case _ =>
    }
  }

  /** The emitted code returns exactly when the body does. */
  lemma ReturnsIff(f: Function, args: seq<Value>, base: nat, vs: seq<Value>, log: seq<Event>)
    requires EmitFunction(f).Ok? && Typed(f.params, args)
    requires forall fuel: nat :: Defined(RunEmitted(f, args, base, fuel))
    ensures Reaches(EmitFunction(f).value, Running(EntryFrame(args, base)), Finished(vs, base, log)) <==>
            exists fuel: nat :: RunEmitted(f, args, base, fuel).out == Returned(vs) && RunEmitted(f, args, base, fuel).st.log == log
  {
    hide EmitFunction, RunEmitted, EntryFrame, Runs;
    var code, c := EmitFunction(f).value, Running(EntryFrame(args, base));
    if n: nat :| Runs(code, c, n, Finished(vs, base, log)) {
      OnlyReturns(f, args, base, n, vs, base, log);
    }
    if fuel: nat :| RunEmitted(f, args, base, fuel).out == Returned(vs) && RunEmitted(f, args, base, fuel).st.log == log {
      EmittedRuns(f, args, base, fuel);
    }
  }

  /** The emitted code traps only as the body does, with the same output. */
  lemma OnlyTraps(f: Function, args: seq<Value>, base: nat, n: nat, kind: TrapKind, log: seq<Event>)
    requires EmitFunction(f).Ok? && Typed(f.params, args) && Defined(RunEmitted(f, args, base, n))
    requires Runs(EmitFunction(f).value, Running(EntryFrame(args, base)), n, Aborted(kind, log))
    ensures RunEmitted(f, args, base, n).out == Trapped(kind) && RunEmitted(f, args, base, n).st.log == log
  {
    var code, c, r := EmitFunction(f).value, Running(EntryFrame(args, base)), RunEmitted(f, args, base, n);
    EmittedRuns(f, args, base, n);
    hide EmitFunction, RunEmitted, Typed, EntryFrame, Runs;
    match r.out {
      case Returned(us) =>
        var m: nat :| Runs(code, c, m, Finished(us, base, r.st.log));
        OneEnd(code, c, m, Finished(us, base, r.st.log), n, Aborted(kind, log));
        OneEnd(code, c, n, Aborted(kind, log), m, Finished(us, base, r.st.log));
      case Trapped(k) =>
        var m: nat :| Runs(code, c, m, Aborted(k, r.st.log));
        OneEnd(code, c, m, Aborted(k, r.st.log), n, Aborted(kind, log));
        OneEnd(code, c, n, Aborted(kind, log), m, Aborted(k, r.st.log));
      case Timeout =>
        var m: nat, g :| m >= n && Runs(code, c, m, Running(g)) && g.log == r.st.log;
        OneEnd(code, c, n, Aborted(kind, log), m, Running(g));
      case _ =>
    }
  }

  /** The emitted code stops at a trap exactly when the body does. */
  lemma TrapsIff(f: Function, args: seq<Value>, base: nat, kind: TrapKind, log: seq<Event>)
    requires EmitFunction(f).Ok? && Typed(f.params, args)
    requires forall fuel: nat :: Defined(RunEmitted(f, args, base, fuel))
    ensures Reaches(EmitFunction(f).value, Running(EntryFrame(args, base)), Aborted(kind, log)) <==>
            exists fuel: nat :: RunEmitted(f, args, base, fuel).out == Trapped(kind) && RunEmitted(f, args, base, fuel).st.log == log
  {
    hide EmitFunction, RunEmitted, EntryFrame, Runs;
    var code, c := EmitFunction(f).value, Running(EntryFrame(args, base));
    if n: nat :| Runs(code, c, n, Aborted(kind, log)) {
      OnlyTraps(f, args, base, n, kind, log);
    }
    if fuel: nat :| RunEmitted(f, args, base, fuel).out == Trapped(kind) && RunEmitted(f, args, base, fuel).st.log == log {
      EmittedRuns(f, args, base, fuel);
    }
  }

  // ---------------------------------------------------------------- arenas

  /** How many arenas are open after `log`, if every closed arena was the innermost one and had been opened in the call. */
  function Replay(log: seq<Event>, base: nat, open: nat): Option<nat>
    decreases |log|
  {
    if log == [] then Some(open)
    else
      match log[0]
      case ArenaOpened(id, _) => if id == open then Replay(log[1..], base, open + 1) else None
      case ArenaClosed(id) => if open > base && id == open - 1 then Replay(log[1..], base, open - 1) else None
      case _ => Replay(log[1..], base, open)
  }

  lemma {:induction false} ReplayMore(log: seq<Event>, e: Event, base: nat, open: nat)
    ensures Replay(log + [e], base, open) == match Replay(log, base, open) case None => None case Some(k) => Replay([e], base, k)
    decreases |log|
  {
    if log == [] {
      assert [] + [e] == [e];
    } else {
      assert (log + [e])[0] == log[0] && (log + [e])[1..] == log[1..] + [e];
      match log[0]
      case ArenaOpened(id, _) => ReplayMore(log[1..], e, base, open + 1);
      case ArenaClosed(id) =>
        if open > base {
          ReplayMore(log[1..], e, base, open - 1);
        }
      case _ => ReplayMore(log[1..], e, base, open);
    }
  }

  /** The open arenas are those that the output says, and every arena pointer at hand was created in the call. */
  ghost predicate ArenasKnown(c: Config, base: nat) {
    match c
    case Running(f) =>
      && Replay(f.log, base, base) == Some(f.open)
      && (forall r :: r in f.regs && f.regs[r].ArenaV? ==> f.regs[r].id >= base)
      && (forall t :: t in f.slots && f.slots[t].ArenaV? ==> f.slots[t].id >= base)
    case Finished(_, open, log) => Replay(log, base, base) == Some(open)
    case Aborted(_, log) => Replay(log, base, base) != None
    case Stuck => true
  }

  lemma ReplayLeast(log: seq<Event>, base: nat, open: nat)
    requires Replay(log, base, open).Some? && open >= base
    ensures Replay(log, base, open).value >= base
    decreases |log|
  {
  }

  lemma {:induction false} StepArenas(code: Code, c: Config, base: nat)
    requires ArenasKnown(c, base)
    ensures ArenasKnown(Step(code, c), base)
  {
    if c.Running? && c.f.pc < |code| && code[c.f.pc].InstLine? {
      InstArenas(c.f, code[c.f.pc].i, base);
    }
  }

  lemma InstArenas(f: Frame, i: Inst, base: nat)
    requires ArenasKnown(Running(f), base)
    ensures ArenasKnown(StepInst(f, i), base)
  {
    hide Operate, Replay;
    ReplayLeast(f.log, base, base);
    match i {
      case Arith(_, op, a, b) =>
        if Readable(f, a) && Readable(f, b) {
          OperateNoArena(op, Read(f, a), Read(f, b));
        }
      case PrintI64(a) => if StepInst(f, i).Running? { ReplayStep(f.log, PrintedInt(Read(f, a).n), base, f.open); }
      case PrintBool(a) => if StepInst(f, i).Running? { ReplayStep(f.log, PrintedBool(Read(f, a).n != 0), base, f.open); }
      case PrintStr(s) => ReplayStep(f.log, PrintedText(s), base, f.open);
      case ArenaCreate(_, size) => if StepInst(f, i).Running? { ReplayStep(f.log, ArenaOpened(f.open, Read(f, size).n), base, f.open); }
      case ArenaDestroy(a) => if StepInst(f, i).Running? { ReplayStep(f.log, ArenaClosed(f.open - 1), base, f.open); }
      case _ =>
    }
  }

  lemma OperateNoArena(op: BinOp, a: Value, b: Value)
    ensures Operate(op, a, b).Produces? ==> !Operate(op, a, b).v.ArenaV?
  {
  }

  lemma ReplayStep(log: seq<Event>, e: Event, base: nat, open: nat)
    requires Replay(log, base, base) == Some(open)
    ensures Replay(log + [e], base, base) ==
            match e
            case ArenaOpened(id, _) => if id == open then Some(open + 1) else None
            case ArenaClosed(id) => if open > base && id == open - 1 then Some(open - 1) else None
            case _ => Some(open)
  {
    ReplayMore(log, e, base, base);
    assert [e][1..] == [];
  }

  lemma {:induction false} StepsArenas(code: Code, c: Config, base: nat, n: nat)
    requires ArenasKnown(c, base)
    ensures ArenasKnown(Steps(code, c, n), base)
    decreases n
  {
    if n > 0 {
      StepArenas(code, c, base);
      StepsArenas(code, Step(code, c), base, n - 1);
    }
  }

  /** In every call of an emitted function that returns, each arena created in the call is destroyed exactly once,
      innermost first, and no other arena is. */
  lemma ArenaDiscipline(f: Function, args: seq<Value>, base: nat, n: nat, vs: seq<Value>, open: nat, log: seq<Event>)
    requires EmitFunction(f).Ok? && Typed(f.params, args) && Defined(RunEmitted(f, args, base, n))
    requires Runs(EmitFunction(f).value, Running(EntryFrame(args, base)), n, Finished(vs, open, log))
    ensures open == base && Replay(log, base, base) == Some(base)
  {
    OnlyReturns(f, args, base, n, vs, open, log);
    hide EmitFunction, RunEmitted;
    EntryArenas(f.params, args, base);
    StepsArenas(EmitFunction(f).value, Running(EntryFrame(args, base)), base, n);
  }

  lemma EntryArenas(params: seq<(Name, Ty)>, args: seq<Value>, base: nat)
    requires Typed(params, args)
    ensures ArenasKnown(Running(EntryFrame(args, base)), base)
  {
    var f := EntryFrame(args, base);
    forall r | r in f.regs
      ensures !f.regs[r].ArenaV?
    {
      ArgKeys(args, r);
      ArgAt(args, -1 - r);
    }
  }
}
