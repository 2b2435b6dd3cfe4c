/** The part of LLVM IR that the emitter writes: labelled basic blocks over stack slots, and a machine
    that runs them. */
module BlockCode {
  import opened UbelSyntax
  import opened UbelSource

  /** Registers and stack slots are numbered by the emitter; parameters are the negative registers. */
  type Reg = int
  type Slot = nat
  type Label = nat

  datatype Operand = Const(v: Value) | Reg(r: Reg)

  datatype Inst =
    | Load(dst: Reg, slot: Slot)
    | Store(src: Operand, slot: Slot)
    | Arith(dst: Reg, op: BinOp, a: Operand, b: Operand)
    | Zext(dst: Reg, a: Operand)
    | PrintI64(a: Operand)
    | PrintBool(a: Operand)
    | PrintStr(s: string)
    | ArenaCreate(dst: Reg, size: Operand)
    | ArenaDestroy(arena: Reg)
    | CallTrap(kind: TrapKind)

  datatype Term =
    | Br(target: Label)
    | CondBr(c: Operand, yes: Label, no: Label)
    | Ret(result: seq<Operand>)
    | Unreachable

  /** One line of a function body. */
  datatype Line = LabelLine(l: Label) | InstLine(i: Inst) | TermLine(t: Term)

  type Code = seq<Line>

  // ---------------------------------------------------------------- the machine

  datatype Frame = Frame(pc: nat, regs: map<Reg, Value>, slots: map<Slot, Value>, open: nat, log: seq<Event>)

  /** A running function, or how it stopped. A frame is stuck when it reads what was never written,
      divides by zero or shifts too far, destroys an arena that is not the innermost open one, jumps to
      a missing label, runs into a label or past the end, or reaches `unreachable`. */
  datatype Config =
    | Running(f: Frame)
    | Finished(result: seq<Value>, open: nat, log: seq<Event>)
    | Aborted(kind: TrapKind, log: seq<Event>)
    | Stuck

  /** Arena pointers are not constants. */
  predicate Readable(f: Frame, o: Operand) {
    match o
    case Const(v) => !v.ArenaV?
    case Reg(r) => r in f.regs
  }

  function Read(f: Frame, o: Operand): Value
    requires Readable(f, o)
  {
    match o
    case Const(v) => v
    case Reg(r) => f.regs[r]
  }

  function SetReg(f: Frame, r: Reg, v: Value): Frame {
    f.(pc := f.pc + 1, regs := f.regs[r := v])
  }

  function Log(f: Frame, e: Event): Frame {
    f.(pc := f.pc + 1, log := f.log + [e])
  }

  /** The position after the line that defines `l`, or the end of the code. */
  function Target(code: Code, l: Label): nat {
    if code == [] then 0
    else if code[0] == LabelLine(l) then 1
    else 1 + Target(code[1..], l)
  }

  function Jump(code: Code, f: Frame, l: Label): Config {
    if LabelLine(l) in code then Running(f.(pc := Target(code, l))) else Stuck
  }

  function StepInst(f: Frame, i: Inst): Config {
    match i
    case Load(dst, slot) => if slot in f.slots then Running(SetReg(f, dst, f.slots[slot])) else Stuck
    case Store(src, slot) =>
      if Readable(f, src) then Running(f.(pc := f.pc + 1, slots := f.slots[slot := Read(f, src)])) else Stuck
    case Arith(dst, op, a, b) =>
      if !Readable(f, a) || !Readable(f, b) then Stuck
      else
        (match Operate(op, Read(f, a), Read(f, b))
         case Produces(v) => Running(SetReg(f, dst, v))
         case _ => Stuck)
    case Zext(dst, a) =>
      if Readable(f, a) && Read(f, a).BoolV? then Running(SetReg(f, dst, IntV(if Read(f, a).b then 1 else 0))) else Stuck
    case PrintI64(a) =>
      if Readable(f, a) && Read(f, a).IntV? then Running(Log(f, PrintedInt(Read(f, a).n))) else Stuck
    case PrintBool(a) =>
      if Readable(f, a) && Read(f, a).IntV? then Running(Log(f, PrintedBool(Read(f, a).n != 0))) else Stuck
    case PrintStr(s) => Running(Log(f, PrintedText(s)))
    case ArenaCreate(dst, size) =>
      if Readable(f, size) && Read(f, size).IntV? then
        Running(Log(f.(regs := f.regs[dst := ArenaV(f.open)], open := f.open + 1), ArenaOpened(f.open, Read(f, size).n)))
      else Stuck
    case ArenaDestroy(a) =>
      if f.open > 0 && a in f.regs && f.regs[a] == ArenaV(f.open - 1) then
        Running(Log(f.(open := f.open - 1), ArenaClosed(f.open - 1)))
      else Stuck
    case CallTrap(kind) => Aborted(kind, f.log)
  }

  function StepTerm(code: Code, f: Frame, t: Term): Config {
    match t
    case Br(l) => Jump(code, f, l)
    case CondBr(c, yes, no) =>
      if Readable(f, c) && Read(f, c).BoolV? then Jump(code, f, if Read(f, c).b then yes else no) else Stuck
    case Ret(result) =>
      if forall o :: o in result ==> Readable(f, o) then Finished(ReadAll(f, result), f.open, f.log) else Stuck
    case Unreachable => Stuck
  }

  function ReadAll(f: Frame, os: seq<Operand>): seq<Value>
    requires forall o :: o in os ==> Readable(f, o)
  {
    if os == [] then [] else [Read(f, os[0])] + ReadAll(f, os[1..])
  }

  function Step(code: Code, c: Config): Config {
    match c
    case Running(f) =>
      if f.pc >= |code| then Stuck
      else
        (match code[f.pc]
         case LabelLine(_) => Stuck
         case InstLine(i) => StepInst(f, i)
         case TermLine(t) => StepTerm(code, f, t))
    case _ => c
  }

  /** `n` steps. */
  function Steps(code: Code, c: Config, n: nat): Config
    decreases n
  {
    if n == 0 then c else Steps(code, Step(code, c), n - 1)
  }

  lemma {:induction false} StepsAdd(code: Code, c: Config, m: nat, n: nat)
    ensures Steps(code, c, m + n) == Steps(code, Steps(code, c, m), n)
    decreases m
  {
    if m > 0 {
      StepsAdd(code, Step(code, c), m - 1, n);
    }
  }

  // ---------------------------------------------------------------- labels

  /** Every label is defined at most once. */
  ghost predicate UniqueLabels(code: Code) {
    forall i, j :: 0 <= i < j < |code| && code[i].LabelLine? ==> code[i] != code[j]
  }

  lemma {:induction false} TargetOfLabel(code: Code, l: Label, i: nat)
    requires UniqueLabels(code) && i < |code| && code[i] == LabelLine(l)
    ensures Target(code, l) == i + 1
    decreases i
  {
    if i > 0 {
      assert code[0] != code[i] by {
        assert code[0].LabelLine? ==> code[0] != code[i];
      }
      forall a, b | 0 <= a < b < |code[1..]| && code[1..][a].LabelLine?
        ensures code[1..][a] != code[1..][b]
      {
        assert code[a + 1] != code[b + 1];
      }
      TargetOfLabel(code[1..], l, i - 1);
    }
  }
}
