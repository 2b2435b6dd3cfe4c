/** How a running frame of the emitted code stands for a state of the program, and what the single steps
    of the emitter do to it. */
module EmitSim {
  import opened Wrappers
  import opened UbelSyntax
  import opened UbelSource
  import opened BlockCode
  import opened EmitSpec
  import opened EmitStatic
  import opened EmitKeeps

  // ---------------------------------------------------------------- the relation

  /** The slots of the visible locals hold the values of the variables. */
  ghost predicate MatchEnv(scopes: Scopes, env: seq<Scope>, slots: map<Slot, Value>) {
    && |scopes| == |env|
    && (forall k: nat, x :: k < |env| && x in env[k] ==> IsLocal(scopes, k, x))
    && (forall k: nat, x :: IsLocal(scopes, k, x) ==>
          && x in env[k] && SlotOf(scopes, k, x) in slots && slots[SlotOf(scopes, k, x)] == env[k][x]
          && HasType(env[k][x], scopes[k][x].ty))
  }

  /** The arena registers hold the open arenas of this call, which are numbered from `base`. */
  ghost predicate ArenasIn(arenas: seq<Reg>, regs: map<Reg, Value>, base: nat) {
    forall i :: 0 <= i < |arenas| ==> arenas[i] in regs && regs[arenas[i]] == ArenaV(base + i)
  }

  ghost predicate Rel(s: Em, st: State, f: Frame, base: nat) {
    && MatchEnv(s.scopes, st.env, f.slots) && ArenasIn(s.arenas, f.regs, base)
    && f.open == st.open == base + |s.arenas| && f.log == st.log && st.wraps
  }

  /** The frame stands at the end of what has been emitted so far. */
  ghost predicate Sim(s: Em, st: State, f: Frame, base: nat) {
    !s.terminated && f.pc == |s.body| && Rel(s, st, f, base)
  }

  /** The finished code has the labels that `break` and `continue` need. */
  ghost predicate Ctx(code: Code, s: Em) {
    && UniqueLabels(code)
    && forall c :: c in s.loops ==> LabelLine(c.cont) in code && LabelLine(c.brk) in code && c.depth <= |s.arenas|
  }

  /** What was emitted so far is the beginning of the finished code. */
  ghost predicate Within(s: Em, code: Code) {
    s.body <= code
  }

  /** Operand `o` has value `v`, now and as long as only registers above `s.tmp` change. */
  ghost predicate Holds(s: Em, f: Frame, o: Operand, v: Value, ty: Ty) {
    Readable(f, o) && Read(f, o) == v && HasType(v, ty) && (o.Reg? ==> o.r <= s.tmp)
  }

  ghost predicate InScope(scopes: Scopes, slot: Slot) {
    exists k: nat, x :: IsLocal(scopes, k, x) && SlotOf(scopes, k, x) == slot
  }

  /** The registers and slots handed out before `s` are unchanged, except the variables in scope. */
  ghost predicate Keeps(s: Em, f: Frame, f': Frame) {
    && (forall r :: r in f.regs && r <= s.tmp ==> r in f'.regs && f'.regs[r] == f.regs[r])
    && (forall t :: t in f.slots && t <= s.tmp && !InScope(s.scopes, t) ==> t in f'.slots && f'.slots[t] == f.slots[t])
  }

  /** The events after the arenas `lo` to `hi - 1` have been closed, innermost first. */
  function CloseLog(log: seq<Event>, lo: nat, hi: nat): seq<Event>
    decreases hi
  {
    if hi <= lo then log else CloseLog(log + [ArenaClosed(hi - 1)], lo, hi - 1)
  }

  /** At label `l` of an enclosing loop: the outer `k` scopes match, and the arenas opened since the loop
      body began have been destroyed. */
  ghost predicate AtLoop(code: Code, s: Em, l: Label, depth: nat, st: State, f: Frame, base: nat, k: nat) {
    && k <= |s.scopes| == |st.env| && f.pc == Target(code, l)
    && MatchEnv(s.scopes[..k], st.env[..k], f.slots)
    && depth <= |s.arenas| && st.open == base + |s.arenas| && f.open == base + depth
    && f.log == CloseLog(st.log, base + depth, st.open) && st.wraps
  }

  /** Where the machine is when the evaluation has ended with `res`, `n` steps after frame `f`. */
  ghost predicate Lands(code: Code, s: Em, s': Em, f: Frame, res: Res, c: Config, base: nat, fuel: nat, n: nat, k: nat) {
    match res.out
    case Yield(_) => c.Running? && Sim(s', res.st, c.f, base) && Keeps(s, f, c.f)
    case Done => c.Running? && Sim(s', res.st, c.f, base) && Keeps(s, f, c.f)
    case Broke =>
      && s.loops != [] && c.Running? && Keeps(s, f, c.f)
      && var l := s.loops[|s.loops| - 1]; AtLoop(code, s, l.brk, l.depth, res.st, c.f, base, k)
    case Continued =>
      && s.loops != [] && c.Running? && Keeps(s, f, c.f) && n > 0
      && var l := s.loops[|s.loops| - 1]; AtLoop(code, s, l.cont, l.depth, res.st, c.f, base, k)
    case Returned(vs) =>
      && c == Finished(vs, base, CloseLog(res.st.log, base, base + |s.arenas|)) && res.st.open == base + |s.arenas|
      && ResultType(s.ret, vs)
    case Trapped(kind) => c == Aborted(kind, res.st.log)
    case Undef => true
    case Wrong => false
    case Timeout => c.Running? && c.f.log == res.st.log && n >= fuel
  }

  ghost predicate ResultType(ret: Ty, vs: seq<Value>) {
    if ret == Void then vs == [] else |vs| == 1 && HasType(vs[0], ret)
  }

  predicate Normal(out: Outcome) {
    out == Done || out.Yield?
  }

  ghost predicate LandsExpr(code: Code, s: Em, r: Emitted, f: Frame, res: Res, c: Config, base: nat, fuel: nat, n: nat) {
    && res.out != Done
    && Lands(code, s, r.s, f, res, c, base, fuel, n, |s.scopes|)
    && (res.out.Yield? ==> Holds(r.s, c.f, r.v, res.out.v, r.ty))
  }

  ghost predicate Runs(code: Code, c: Config, n: nat, c': Config) {
    Steps(code, c, n) == c'
  }

  lemma RunsTrans(code: Code, a: Config, m: nat, b: Config, n: nat, c: Config)
    requires Runs(code, a, m, b) && Runs(code, b, n, c)
    ensures Runs(code, a, m + n, c)
  {
    StepsAdd(code, a, m, n);
  }

  lemma RunsStep(code: Code, a: Config)
    ensures Runs(code, a, 1, Step(code, a))
  {
    assert Steps(code, a, 1) == Steps(code, Step(code, a), 0);
  }

  // ---------------------------------------------------------------- keeping and landing, composed

  lemma KeepsRefl(s: Em, f: Frame)
    ensures Keeps(s, f, f)
  {
  }

  lemma ScopeOfGrown(s0: Em, s1: Em, t: Slot)
    requires Good(s0, s1) && t <= s0.tmp && InScope(s1.scopes, t)
    ensures InScope(s0.scopes, t)
  {
    hide LabelsOk, BlocksClosed, NewLabelsAbove;
    var k: nat, x :| IsLocal(s1.scopes, k, x) && SlotOf(s1.scopes, k, x) == t;
    assert IsLocal(s0.scopes, k, x);
  }

  lemma KeepsTrans(s0: Em, s1: Em, f0: Frame, f1: Frame, f2: Frame)
    requires Good(s0, s1) && Keeps(s0, f0, f1) && Keeps(s1, f1, f2)
    ensures Keeps(s0, f0, f2)
  {
    hide InScope;
    assert s0.tmp <= s1.tmp by {
      TmpGrows(s0, s1);
    }
    forall t | t in f0.slots && t <= s0.tmp && !InScope(s0.scopes, t)
      ensures t in f2.slots && f2.slots[t] == f0.slots[t]
    {
      if InScope(s1.scopes, t) {
        ScopeOfGrown(s0, s1, t);
      }
    }
  }

  lemma HoldsKept(s: Em, s': Em, f: Frame, f': Frame, o: Operand, v: Value, ty: Ty)
    requires Holds(s, f, o, v, ty) && Keeps(s, f, f') && s.tmp <= s'.tmp
    ensures Holds(s', f', o, v, ty)
  {
  }

  /** An evaluation that ended early ends whatever follows. */
  lemma LandsEarly(code: Code, s: Em, s1: Em, s': Em, f: Frame, res: Res, c: Config, base: nat, fuel: nat, n: nat, k: nat)
    requires Lands(code, s, s1, f, res, c, base, fuel, n, k) && !Normal(res.out)
    ensures Lands(code, s, s', f, res, c, base, fuel, n, k)
  {
    hide AtLoop, Keeps, Sim, CloseLog;
  }

  lemma LandsLater(code: Code, s: Em, s1: Em, s': Em, f: Frame, f1: Frame, res: Res, c: Config, base: nat,
                   fuel: nat, more: nat, n: nat, n': nat, k: nat)
    requires Same(s, s1) && Keeps(s, f, f1)
    requires Lands(code, s1, s', f1, res, c, base, fuel, n, k) && fuel <= more && n' >= n + (more - fuel)
    ensures Lands(code, s, s', f, res, c, base, more, n', k)
  {
    SameFields(s, s1);
    hide AtLoop, Keeps, Sim, CloseLog, Good;
    if c.Running? && (Normal(res.out) || res.out == Broke || res.out == Continued) {
      KeepsTrans(s, s1, f, f1, c.f);
    }
    LandsFields(code, s, s1, res, c, base, k);
  }

  lemma SameFields(s: Em, s1: Em)
    requires Good(s, s1)
    ensures s1.loops == s.loops && s1.arenas == s.arenas && s1.ret == s.ret && |s1.scopes| == |s.scopes| > 0
    ensures s1.scopes[..|s.scopes| - 1] == s.scopes[..|s.scopes| - 1]
    ensures s.body <= s1.body && s.tmp <= s1.tmp
  {
    hide LabelsOk, BlocksClosed, NewLabelsAbove, SlotsOk;
  }

  /** `AtLoop` depends on the context of the state only. */
  lemma LandsFields(code: Code, s: Em, s1: Em, res: Res, c: Config, base: nat, k: nat)
    requires s1.scopes == s.scopes && s1.loops == s.loops && s1.arenas == s.arenas
    ensures c.Running? && s.loops != [] ==>
              var l := s.loops[|s.loops| - 1];
              && (AtLoop(code, s1, l.brk, l.depth, res.st, c.f, base, k) ==> AtLoop(code, s, l.brk, l.depth, res.st, c.f, base, k))
              && (AtLoop(code, s1, l.cont, l.depth, res.st, c.f, base, k) ==> AtLoop(code, s, l.cont, l.depth, res.st, c.f, base, k))
  {
  }

  // ---------------------------------------------------------------- looking at the code

  lemma WithinBack(s: Em, s': Em, code: Code)
    requires Good(s, s') && Within(s', code)
    ensures Within(s, code)
  {
    SameFields(s, s');
    hide Good;
    PrefixTrans(s.body, s'.body, code);
  }

  lemma CtxGood(code: Code, s: Em, s': Em)
    requires Ctx(code, s) && Good(s, s')
    ensures Ctx(code, s')
  {
    SameFields(s, s');
    hide Good;
  }

  /** A frame at the end of the emitted code is about to run the next emitted line. */
  lemma NextLine(code: Code, s: Em, line: Line, f: Frame)
    requires f.pc == |s.body| && AppendLine(s, line).body <= code
    ensures f.pc < |code| && code[f.pc] == line
  {
  }

  /** A jump to a label that ends the code emitted so far. */
  lemma JumpTo(code: Code, s: Em, l: Label, f: Frame)
    requires UniqueLabels(code) && Within(s, code) && |s.body| > 0 && s.body[|s.body| - 1] == LabelLine(l)
    ensures Jump(code, f, l) == Running(f.(pc := |s.body|)) && Target(code, l) == |s.body|
    ensures LabelLine(l) in code
  {
    TargetOfLabel(code, l, |s.body| - 1);
  }

  lemma BeginEnds(s: Em, l: Label)
    ensures |Begin(s, l).body| > 0 && Begin(s, l).body[|Begin(s, l).body| - 1] == LabelLine(l)
    ensures s.body <= Begin(s, l).body && SameContext(s, Begin(s, l)) && !Begin(s, l).terminated
  {
  }

  // ---------------------------------------------------------------- single steps

  /** Moving the frame to the end of another state's code. */
  lemma RelMove(s: Em, s': Em, st: State, f: Frame, base: nat)
    requires Rel(s, st, f, base) && s'.scopes == s.scopes && s'.arenas == s.arenas && !s'.terminated
    ensures Sim(s', st, f.(pc := |s'.body|), base)
  {
  }

  lemma SimNewLabels(s: Em, n: nat, st: State, f: Frame, base: nat)
    requires Sim(s, st, f, base)
    ensures Sim(NewLabels(s, n), st, f, base)
  {
    hide MatchEnv;
  }

  lemma RelFresh(s: Em, n: nat, st: State, f: Frame, base: nat)
    requires Rel(s, st, f, base)
    ensures Rel(Fresh(s, n), st, f, base)
  {
  }

  /** `begin` after a block that is still open. */
  lemma SimBegin(code: Code, s: Em, l: Label, st: State, f: Frame, base: nat)
    requires Sim(s, st, f, base) && UniqueLabels(code) && Within(Begin(s, l), code)
    ensures Step(code, Running(f)) == Running(f.(pc := |Begin(s, l).body|))
    ensures Sim(Begin(s, l), st, f.(pc := |Begin(s, l).body|), base)
    ensures Keeps(s, f, f.(pc := |Begin(s, l).body|))
  {
    BeginEnds(s, l);
    PrefixTrans(AppendLine(s, TermLine(Br(l))).body, Begin(s, l).body, code);
    NextLine(code, s, TermLine(Br(l)), f);
    JumpTo(code, Begin(s, l), l, f);
    RelMove(s, Begin(s, l), st, f, base);
  }

  /** A branch to a label placed at the end of state `s'`. */
  lemma SimBr(code: Code, s: Em, l: Label, s': Em, st: State, f: Frame, base: nat)
    requires Sim(s, st, f, base) && UniqueLabels(code) && Within(Terminate(s, Br(l)), code) && Within(s', code)
    requires |s'.body| > 0 && s'.body[|s'.body| - 1] == LabelLine(l) && !s'.terminated
    requires s'.scopes == s.scopes && s'.arenas == s.arenas
    ensures Step(code, Running(f)) == Running(f.(pc := |s'.body|))
    ensures Sim(s', st, f.(pc := |s'.body|), base) && Keeps(s, f, f.(pc := |s'.body|))
  {
    NextLine(code, s, TermLine(Br(l)), f);
    JumpTo(code, s', l, f);
    RelMove(s, s', st, f, base);
  }

  /** A conditional branch whose taken label is placed at the end of state `s'`. */
  lemma SimCondBr(code: Code, s: Em, v: Operand, b: bool, yes: Label, no: Label, s': Em, st: State, f: Frame, base: nat)
    requires Sim(s, st, f, base) && UniqueLabels(code) && Within(Terminate(s, CondBr(v, yes, no)), code) && Within(s', code)
    requires Readable(f, v) && Read(f, v) == BoolV(b)
    requires |s'.body| > 0 && s'.body[|s'.body| - 1] == LabelLine(if b then yes else no) && !s'.terminated
    requires s'.scopes == s.scopes && s'.arenas == s.arenas
    ensures Step(code, Running(f)) == Running(f.(pc := |s'.body|))
    ensures Sim(s', st, f.(pc := |s'.body|), base) && Keeps(s, f, f.(pc := |s'.body|))
  {
    NextLine(code, s, TermLine(CondBr(v, yes, no)), f);
    JumpTo(code, s', if b then yes else no, f);
    RelMove(s, s', st, f, base);
  }

  /** An instruction that sets register `r`, which is above the numbers of `s0`. */
  lemma SimSet(code: Code, s0: Em, s: Em, i: Inst, r: Reg, v: Value, st: State, f: Frame, base: nat)
    requires Good(s0, s0) && Sim(s, st, f, base) && Within(Instr(s, i), code)
    requires s.scopes == s0.scopes && s.arenas == s0.arenas && r > s0.tmp
    requires StepInst(f, i) == Running(SetReg(f, r, v))
    ensures Step(code, Running(f)) == Running(SetReg(f, r, v))
    ensures Sim(Instr(s, i), st, SetReg(f, r, v), base) && Keeps(s0, f, SetReg(f, r, v))
  {
    hide LabelsOk, BlocksClosed, NewLabelsAbove, SlotsOk, MatchEnv;
    NextLine(code, s, InstLine(i), f);
    assert r !in s.arenas;
  }

  lemma SimLoad(code: Code, s: Em, slot: Slot, ty: Ty, st: State, f: Frame, base: nat)
    requires Good(s, s) && Sim(s, st, f, base) && Within(LoadFrom(s, slot, ty).s, code)
    requires slot in f.slots && HasType(f.slots[slot], ty)
    ensures var r, f' := LoadFrom(s, slot, ty), SetReg(f, s.tmp + 1, f.slots[slot]);
            && Step(code, Running(f)) == Running(f') && Sim(r.s, st, f', base) && Keeps(s, f, f')
            && Holds(r.s, f', r.v, f.slots[slot], ty)
  {
    var s1 := Fresh(s, 1);
    assert Sim(s1, st, f, base);
    SimSet(code, s, s1, Load(s1.tmp, slot), s1.tmp, f.slots[slot], st, f, base);
  }

  /** An operator instruction with register `s.tmp + 1` as its result. */
  lemma SimArith(code: Code, s: Em, op: BinOp, a: Operand, b: Operand, v: Value, ty: Ty, st: State, f: Frame, base: nat)
    requires Good(s, s) && Sim(s, st, f, base)
    requires Within(Instr(Fresh(s, 1), Arith(s.tmp + 1, op, a, b)), code)
    requires Readable(f, a) && Readable(f, b) && Operate(op, Read(f, a), Read(f, b)) == Produces(v) && HasType(v, ty)
    ensures var s', f' := Instr(Fresh(s, 1), Arith(s.tmp + 1, op, a, b)), SetReg(f, s.tmp + 1, v);
            && Step(code, Running(f)) == Running(f') && Sim(s', st, f', base) && Keeps(s, f, f')
            && Holds(s', f', Reg(s.tmp + 1), v, ty)
  {
    hide Operate;
    var s1 := Fresh(s, 1);
    assert Sim(s1, st, f, base);
    SimSet(code, s, s1, Arith(s1.tmp, op, a, b), s1.tmp, v, st, f, base);
  }

  /** A store to a slot that is no variable in scope and is above the numbers of `s0`. */
  lemma SimStore(code: Code, s0: Em, s: Em, src: Operand, slot: Slot, st: State, f: Frame, base: nat)
    requires Sim(s, st, f, base) && Within(Instr(s, Store(src, slot)), code) && Readable(f, src)
    requires slot > s0.tmp && !InScope(s.scopes, slot)
    ensures var f' := f.(pc := f.pc + 1, slots := f.slots[slot := Read(f, src)]);
            && Step(code, Running(f)) == Running(f') && Sim(Instr(s, Store(src, slot)), st, f', base)
            && Keeps(s0, f, f')
  {
    NextLine(code, s, InstLine(Store(src, slot)), f);
    var f' := f.(pc := f.pc + 1, slots := f.slots[slot := Read(f, src)]);
    assert forall k: nat, x :: IsLocal(s.scopes, k, x) ==> SlotOf(s.scopes, k, x) != slot;
    assert MatchEnv(s.scopes, st.env, f'.slots);
  }

  /** Slots above the counter belong to nobody. */
  lemma FreeSlot(s: Em, slot: Slot)
    requires Good(s, s) && slot > s.tmp
    ensures !InScope(s.scopes, slot)
  {
    hide LabelsOk, BlocksClosed, NewLabelsAbove;
  }
}
