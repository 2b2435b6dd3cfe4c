/** The emitted code of scopes, arenas and printing, and how runs of consecutive pieces compose. */
module EmitFlow {
  import opened Wrappers
  import opened UbelSyntax
  import opened UbelSource
  import opened BlockCode
  import opened EmitSpec
  import opened EmitStatic
  import opened EmitKeeps
  import opened EmitSim
  import opened EmitSteps

  // ---------------------------------------------------------------- one piece after another

  /** A piece that runs from the end of the piece before it. */
  lemma Chain(code: Code, s: Em, s1: Em, s': Em, f: Frame, n1: nat, f1: Frame, res: Res, c: Config, base: nat,
              fuel: nat, n2: nat, k: nat)
    requires Same(s, s1) && Keeps(s, f, f1) && Runs(code, Running(f), n1, Running(f1))
    requires Runs(code, Running(f1), n2, c) && Lands(code, s1, s', f1, res, c, base, fuel, n2, k)
    ensures Runs(code, Running(f), n1 + n2, c) && Lands(code, s, s', f, res, c, base, fuel, n1 + n2, k)
  {
    hide Lands, Keeps, Good;
    LandsLater(code, s, s1, s', f, f1, res, c, base, fuel, fuel, n2, n1 + n2, k);
    RunsTrans(code, Running(f), n1, Running(f1), n2, c);
  }

  lemma ChainExpr(code: Code, s: Em, s1: Em, r: Emitted, f: Frame, n1: nat, f1: Frame, res: Res, c: Config, base: nat,
                  fuel: nat, n2: nat)
    requires Same(s, s1) && Keeps(s, f, f1) && Runs(code, Running(f), n1, Running(f1))
    requires Runs(code, Running(f1), n2, c) && LandsExpr(code, s1, r, f1, res, c, base, fuel, n2)
    ensures Runs(code, Running(f), n1 + n2, c) && LandsExpr(code, s, r, f, res, c, base, fuel, n1 + n2)
  {
    hide Lands, Keeps, Good, Holds;
    Chain(code, s, s1, r.s, f, n1, f1, res, c, base, fuel, n2, |s.scopes|);
  }

  /** What a piece that ran to its end gives the next one. */
  lemma Through(code: Code, s: Em, s': Em, f: Frame, res: Res, c: Config, base: nat, fuel: nat, n: nat, k: nat)
    requires Lands(code, s, s', f, res, c, base, fuel, n, k) && Normal(res.out)
    ensures c.Running? && Sim(s', res.st, c.f, base) && Keeps(s, f, c.f)
  {
    hide Sim, Keeps;
  }

  lemma EarlyExpr(code: Code, s: Em, r: Emitted, r': Emitted, f: Frame, res: Res, c: Config, base: nat, fuel: nat, n: nat)
    requires LandsExpr(code, s, r, f, res, c, base, fuel, n) && !res.out.Yield?
    ensures LandsExpr(code, s, r', f, res, c, base, fuel, n)
  {
    hide Lands, Holds;
    LandsEarly(code, s, r.s, r'.s, f, res, c, base, fuel, n, |s.scopes|);
  }

  /** Statement lists end early with the outer scopes intact. */
  lemma LandsNarrow(code: Code, s: Em, s': Em, f: Frame, res: Res, c: Config, base: nat, fuel: nat, n: nat)
    requires |s.scopes| > 0 && Lands(code, s, s', f, res, c, base, fuel, n, |s.scopes|)
    ensures Lands(code, s, s', f, res, c, base, fuel, n, |s.scopes| - 1)
  {
    hide Sim, Keeps, CloseLog, MatchEnv;
    if (res.out == Broke || res.out == Continued) && s.loops != [] {
      var k := |s.scopes|;
      var outer := s.scopes[..k];
      MatchPrefix(outer, res.st.env[..k], c.f.slots, k - 1);
      assert outer[..k - 1] == s.scopes[..k - 1];
      assert res.st.env[..k][..k - 1] == res.st.env[..k - 1];
    }
  }

  /** A statement after another one of the same list. */
  lemma ChainStmts(code: Code, s: Em, s1: Em, s': Em, f: Frame, n1: nat, f1: Frame, res: Res, c: Config, base: nat,
                   fuel: nat, n2: nat)
    requires Good(s, s1) && Keeps(s, f, f1) && Runs(code, Running(f), n1, Running(f1)) && |s.scopes| > 0
    requires Runs(code, Running(f1), n2, c) && Lands(code, s1, s', f1, res, c, base, fuel, n2, |s.scopes| - 1)
    ensures Runs(code, Running(f), n1 + n2, c) && Lands(code, s, s', f, res, c, base, fuel, n1 + n2, |s.scopes| - 1)
  {
    SameFields(s, s1);
    hide AtLoop, Keeps, Sim, CloseLog, Good;
    RunsTrans(code, Running(f), n1, Running(f1), n2, c);
    if c.Running? && (Normal(res.out) || res.out == Broke || res.out == Continued) {
      KeepsTrans(s, s1, f, f1, c.f);
    }
    OuterFields(code, s, s1, res, c, base);
  }

  lemma OuterFields(code: Code, s: Em, s1: Em, res: Res, c: Config, base: nat)
    requires Good(s, s1) && |s.scopes| > 0
    ensures c.Running? && s.loops != [] ==>
              var l := s.loops[|s.loops| - 1];
              var k: nat := |s.scopes| - 1;
              && (AtLoop(code, s1, l.brk, l.depth, res.st, c.f, base, k) ==> AtLoop(code, s, l.brk, l.depth, res.st, c.f, base, k))
              && (AtLoop(code, s1, l.cont, l.depth, res.st, c.f, base, k) ==> AtLoop(code, s, l.cont, l.depth, res.st, c.f, base, k))
  {
    SameFields(s, s1);
    hide Good, MatchEnv;
  }

  // ---------------------------------------------------------------- scopes

  lemma SimPush(s: Em, st: State, f: Frame, base: nat)
    requires Sim(s, st, f, base)
    ensures Sim(PushScope(s), Push(st, map[]), f, base)
  {
    PushMatch(s.scopes, st.env, f.slots);
    hide MatchEnv;
  }

  lemma SimPop(s: Em, inner: Em, st: State, f: Frame, base: nat)
    requires Good(PushScope(s), inner) && Sim(inner, st, f, base)
    ensures |st.env| > 0 && Sim(PopScope(inner), st.(env := st.env[..|st.env| - 1]), f, base)
  {
    assert |inner.scopes| > 0 by {
      SameFields(PushScope(s), inner);
    }
    hide Good;
    MatchPrefix(inner.scopes, st.env, f.slots, |inner.scopes| - 1);
    hide MatchEnv;
  }

  lemma KeepsPush(s: Em, f: Frame, f': Frame)
    requires Keeps(PushScope(s), f, f')
    ensures Keeps(s, f, f')
  {
    forall t: Slot | InScope(PushScope(s).scopes, t)
      ensures InScope(s.scopes, t)
    {
      var k: nat, x :| IsLocal(PushScope(s).scopes, k, x) && SlotOf(PushScope(s).scopes, k, x) == t;
      assert IsLocal(s.scopes, k, x);
    }
  }

  /** Leaving a scope, however its statements ended. */
  lemma LandsPop(code: Code, s: Em, inner: Em, f: Frame, res: Res, c: Config, base: nat, fuel: nat, n: nat)
    requires Good(PushScope(s), inner)
    requires Lands(code, PushScope(s), inner, f, res, c, base, fuel, n, |s.scopes|)
    ensures Lands(code, s, PopScope(inner), f, Pop(res), c, base, fuel, n, |s.scopes|)
  {
    hide Good, Sim, Keeps, CloseLog, MatchEnv, PopScope;
    if c.Running? && (Normal(res.out) || res.out == Broke || res.out == Continued) {
      KeepsPush(s, f, c.f);
      if Normal(res.out) {
        SimPop(s, inner, res.st, c.f, base);
      } else {
        assert PushScope(s).scopes[..|s.scopes|] == s.scopes == s.scopes[..|s.scopes|];
        assert Pop(res).st.env[..|s.scopes|] == res.st.env[..|s.scopes|];
      }
    }
  }

  lemma CtxPush(code: Code, s: Em)
    requires Ctx(code, s)
    ensures Ctx(code, PushScope(s))
  {
  }

  // ---------------------------------------------------------------- arenas

  lemma SimCreate(code: Code, v: Emitted, size: i64, st: State, f: Frame, base: nat) returns (f': Frame)
    requires Good(v.s, v.s) && Sim(v.s, st, f, base) && Holds(v.s, f, v.v, IntV(size), I64)
    requires Within(CreateArena(v), code)
    ensures Runs(code, Running(f), 1, Running(f'))
    ensures Sim(CreateArena(v), OpenArena(st, size), f', base) && Keeps(v.s, f, f')
  {
    var s := Fresh(v.s, 1);
    NextLine(code, s, InstLine(ArenaCreate(s.tmp, v.v)), f);
    RunsStep(code, Running(f));
    f' := Log(f.(regs := f.regs[s.tmp := ArenaV(f.open)], open := f.open + 1), ArenaOpened(f.open, size));
    assert forall a :: a in v.s.arenas ==> a != s.tmp by {
      hide LabelsOk, BlocksClosed, SlotsOk, Grows;
    }
    hide Good, MatchEnv;
    var arenas := CreateArena(v).arenas;
    assert arenas == v.s.arenas + [s.tmp];
    forall i | 0 <= i < |arenas|
      ensures arenas[i] in f'.regs && f'.regs[arenas[i]] == ArenaV(base + i)
    {
      if i < |v.s.arenas| {
        assert v.s.arenas[i] in v.s.arenas;
      }
    }
    assert Keeps(v.s, f, f');
  }

  /** The frame stands at the end of the code with the first `k` arenas of the call open. */
  ghost predicate Standing(s: Em, f: Frame, base: nat, k: nat) {
    !s.terminated && f.pc == |s.body| && k <= |s.arenas| && ArenasIn(s.arenas, f.regs, base) && f.open == base + k
  }

  lemma DestroyLine(code: Code, s: Em, k: nat, f: Frame, base: nat)
    requires Standing(s, f, base, k) && k > 0 && Within(Instr(s, ArenaDestroy(s.arenas[k - 1])), code)
    ensures var s1, f1 := Instr(s, ArenaDestroy(s.arenas[k - 1])),
              f.(pc := f.pc + 1, open := f.open - 1, log := f.log + [ArenaClosed(base + k - 1)]);
            Step(code, Running(f)) == Running(f1) && Standing(s1, f1, base, k - 1)
  {
    NextLine(code, s, InstLine(ArenaDestroy(s.arenas[k - 1])), f);
  }

  lemma DestroyBody(s: Em, k: nat, depth: nat)
    requires k <= |s.arenas|
    ensures s.body <= DestroyDown(s, k, depth).body && SameContext(s, DestroyDown(s, k, depth))
    ensures !s.terminated ==> !DestroyDown(s, k, depth).terminated
    decreases k
  {
    if k > depth {
      InstrBody(s, ArenaDestroy(s.arenas[k - 1]));
      hide Instr;
      var s1 := Instr(s, ArenaDestroy(s.arenas[k - 1]));
      DestroyBody(s1, k - 1, depth);
      PrefixTrans(s.body, s1.body, DestroyDown(s1, k - 1, depth).body);
    }
  }

  /** The arenas of the call are destroyed innermost first. */
  lemma {:induction false} SimDestroy(code: Code, s: Em, k: nat, depth: nat, f: Frame, base: nat)
    returns (n: nat, f': Frame)
    requires Standing(s, f, base, k) && depth <= k && Within(DestroyDown(s, k, depth), code)
    ensures Runs(code, Running(f), n, Running(f'))
    ensures Standing(DestroyDown(s, k, depth), f', base, depth)
    ensures f'.regs == f.regs && f'.slots == f.slots && f'.log == CloseLog(f.log, base + depth, base + k)
    decreases k
  {
    if k <= depth {
      n, f' := 0, f;
    } else {
      var s1 := Instr(s, ArenaDestroy(s.arenas[k - 1]));
      InstrBody(s, ArenaDestroy(s.arenas[k - 1]));
      DestroyBody(s1, k - 1, depth);
      PrefixTrans(s1.body, DestroyDown(s1, k - 1, depth).body, code);
      DestroyLine(code, s, k, f, base);
      hide Instr, Standing;
      var f1 := Step(code, Running(f)).f;
      var m;
      m, f' := SimDestroy(code, s1, k - 1, depth, f1, base);
      RunsStep(code, Running(f));
      RunsTrans(code, Running(f), 1, Running(f1), m, Running(f'));
      n := m + 1;
    }
  }

  lemma KeepsArena(v: Emitted, f: Frame, f1: Frame, f2: Frame)
    requires Good(v.s, v.s) && Keeps(v.s, f, f1) && Keeps(CreateArena(v), f1, f2)
    ensures Keeps(v.s, f, f2)
  {
    hide Good, InScope;
  }

  /** The arena block was left at its end: the arena is destroyed there. */
  lemma LeaveDone(code: Code, v: Emitted, inner: Em, st: State, f: Frame, base: nat) returns (f': Frame)
    requires Same(CreateArena(v), inner) && Sim(inner, st, f, base) && Within(LeaveArena(inner), code)
    ensures Runs(code, Running(f), 1, Running(f'))
    ensures st.open > 0 && f'.regs == f.regs && f'.slots == f.slots
    ensures Sim(LeaveArena(inner), CloseArena(Res(Done, st)).st, f', base)
  {
    SameFields(CreateArena(v), inner);
    var k := |inner.arenas|;
    hide Good, MatchEnv, LeaveArena;
    LeaveForm(inner);
    InstrBody(inner, ArenaDestroy(inner.arenas[k - 1]));
    DestroyLine(code, inner, k, f, base);
    RunsStep(code, Running(f));
    f' := Step(code, Running(f)).f;
  }

  lemma LeaveForm(inner: Em)
    requires |inner.arenas| > 0 && !inner.terminated
    ensures var k := |inner.arenas|;
            var d := Instr(inner, ArenaDestroy(inner.arenas[k - 1]));
            LeaveArena(inner) == d.(arenas := inner.arenas[..k - 1])
  {
    InstrBody(inner, ArenaDestroy(inner.arenas[|inner.arenas| - 1]));
  }

  /** The arena block was left by a jump, which has destroyed the arena. */
  lemma LeaveJump(code: Code, v: Emitted, l: Label, depth: nat, r: Res, f: Frame, base: nat, k: nat)
    requires AtLoop(code, CreateArena(v), l, depth, r.st, f, base, k) && CreateArena(v).scopes == v.s.scopes
    requires depth <= |v.s.arenas| && |CreateArena(v).arenas| == |v.s.arenas| + 1
    requires !r.out.Trapped? && r.out != Timeout
    ensures AtLoop(code, v.s, l, depth, CloseArena(r).st, f, base, k)
  {
    hide CreateArena, MatchEnv;
  }

  lemma CreateForm(v: Emitted)
    ensures CreateArena(v).arenas == v.s.arenas + [v.s.tmp + 1] && CreateArena(v).loops == v.s.loops
    ensures CreateArena(v).scopes == v.s.scopes && CreateArena(v).ret == v.s.ret
    ensures !CreateArena(v).terminated && v.s.body <= CreateArena(v).body
  {
    InstrBody(Fresh(v.s, 1), ArenaCreate(v.s.tmp + 1, v.v));
    hide Instr;
  }

  lemma CtxArena(code: Code, v: Emitted)
    requires Ctx(code, v.s)
    ensures Ctx(code, CreateArena(v))
  {
    CreateForm(v);
    hide CreateArena;
  }

  /** Leaving an arena block, however it ended. */
  lemma LandsLeave(code: Code, v: Emitted, inner: Em, f: Frame, f1: Frame, res: Res, c: Config, base: nat, fuel: nat, n: nat)
    returns (n': nat, c': Config)
    requires Good(v.s, v.s) && Same(CreateArena(v), inner) && Ctx(code, v.s) && Within(LeaveArena(inner), code)
    requires Keeps(v.s, f, f1) && Runs(code, Running(f1), n, c)
    requires Lands(code, CreateArena(v), inner, f1, res, c, base, fuel, n, |v.s.scopes|)
    ensures Runs(code, Running(f1), n', c')
    ensures Lands(code, v.s, LeaveArena(inner), f, CloseArena(res), c', base, fuel, n', |v.s.scopes|)
  {
    CreateForm(v);
    n', c' := n, c;
    hide Good, Sim, Keeps, AtLoop, CreateArena, LeaveArena, Ctx;
    if Normal(res.out) {
      KeepsArena(v, f, f1, c.f);
      var f' := LeaveDone(code, v, inner, res.st, c.f, base);
      RunsTrans(code, Running(f1), n, c, 1, Running(f'));
      KeepsSame(v.s, f, c.f, f');
      n', c' := n + 1, Running(f');
    } else if res.out == Broke || res.out == Continued {
      KeepsArena(v, f, f1, c.f);
      CtxDepth(code, v.s);
      var l := v.s.loops[|v.s.loops| - 1];
      LeaveJump(code, v, if res.out == Broke then l.brk else l.cont, l.depth, res, c.f, base, |v.s.scopes|);
    }
  }

  lemma KeepsSame(s: Em, f: Frame, f1: Frame, f2: Frame)
    requires Keeps(s, f, f1) && f2.regs == f1.regs && f2.slots == f1.slots
    ensures Keeps(s, f, f2)
  {
  }

  lemma CtxDepth(code: Code, s: Em)
    requires Ctx(code, s) && s.loops != []
    ensures s.loops[|s.loops| - 1].depth <= |s.arenas|
  {
  }

  // ---------------------------------------------------------------- printing

  ghost predicate ShownAs(s: Em, f: Frame, r: Ready, sh: Shown) {
    match (r, sh)
    case (ReadyText(t), ShownText(u)) => t == u
    case (ReadyValue(v, ty), ShownValue(a)) => Holds(s, f, v, a, ty)
    case _ => false
  }

  ghost predicate AllShown(s: Em, f: Frame, ready: seq<Ready>, shown: seq<Shown>) {
    |ready| == |shown| && forall i :: 0 <= i < |ready| ==> ShownAs(s, f, ready[i], shown[i])
  }

  lemma ShownKept(s: Em, s': Em, f: Frame, f': Frame, ready: seq<Ready>, shown: seq<Shown>)
    requires AllShown(s, f, ready, shown) && Keeps(s, f, f') && s.tmp <= s'.tmp
    ensures AllShown(s', f', ready, shown)
  {
    hide Keeps;
    forall i | 0 <= i < |ready|
      ensures ShownAs(s', f', ready[i], shown[i])
    {
      if ready[i].ReadyValue? {
        HoldsKept(s, s', f, f', ready[i].v, shown[i].v, ready[i].ty);
      }
    }
  }

  /** An instruction that only prints. */
  lemma SimOutput(code: Code, s: Em, i: Inst, e: Event, st: State, f: Frame, base: nat)
    requires Sim(s, st, f, base) && Within(Instr(s, i), code) && StepInst(f, i) == Running(Log(f, e))
    ensures Runs(code, Running(f), 1, Running(Log(f, e)))
    ensures Sim(Instr(s, i), Emit(st, e), Log(f, e), base) && Keeps(s, f, Log(f, e))
  {
    NextLine(code, s, InstLine(i), f);
    RunsStep(code, Running(f));
    hide MatchEnv;
  }

  lemma {:induction false} SimPrintReady(code: Code, s: Em, r: Ready, sh: Shown, st: State, f: Frame, base: nat)
    returns (n: nat, f': Frame)
    requires Good(s, s) && Sim(s, st, f, base) && Within(PrintReady(s, r), code) && ShownAs(s, f, r, sh)
    ensures Runs(code, Running(f), n, Running(f'))
    ensures Sim(PrintReady(s, r), st.(log := st.log + OutputOf(sh)), f', base) && Keeps(s, f, f')
  {
    match r
    case ReadyText(t) =>
      n, f' := 0, f;
      if t != "" {
        SimOutput(code, s, PrintStr(t), PrintedText(t), st, f, base);
        n, f' := 1, Log(f, PrintedText(t));
      } else {
        assert st.log + OutputOf(sh) == st.log;
      }
    case ReadyValue(v, ty) =>
      if ty == I64 {
        SimOutput(code, s, PrintI64(v), PrintedInt(sh.v.n), st, f, base);
        n, f' := 1, Log(f, PrintedInt(sh.v.n));
      } else {
        n, f' := SimPrintBool(code, s, v, sh.v.b, st, f, base);
      }
  }

  lemma SimPrintBool(code: Code, s: Em, v: Operand, b: bool, st: State, f: Frame, base: nat) returns (n: nat, f': Frame)
    requires Good(s, s) && Sim(s, st, f, base) && Holds(s, f, v, BoolV(b), I1)
    requires Within(PrintReady(s, ReadyValue(v, I1)), code)
    ensures Runs(code, Running(f), n, Running(f'))
    ensures Sim(PrintReady(s, ReadyValue(v, I1)), st.(log := st.log + [PrintedBool(b)]), f', base) && Keeps(s, f, f')
  {
    var s1 := Fresh(s, 1);
    var z := Instr(s1, Zext(s1.tmp, v));
    InstrBody(z, PrintBool(Reg(s1.tmp)));
    InstrBody(s1, Zext(s1.tmp, v));
    PrefixTrans(z.body, Instr(z, PrintBool(Reg(s1.tmp))).body, code);
    assert Sim(s1, st, f, base);
    var n1: i64 := if b then 1 else 0;
    hide Instr, Good, Within;
    SimSet(code, s, s1, Zext(s1.tmp, v), s1.tmp, IntV(n1), st, f, base);
    var f1 := SetReg(f, s1.tmp, IntV(n1));
    RunsStep(code, Running(f));
    SimOutput(code, z, PrintBool(Reg(s1.tmp)), PrintedBool(b), st, f1, base);
    f' := Log(f1, PrintedBool(b));
    RunsTrans(code, Running(f), 1, Running(f1), 1, Running(f'));
    n := 2;
  }

  lemma {:induction false} SimReady(code: Code, s: Em, ready: seq<Ready>, shown: seq<Shown>, st: State, f: Frame, base: nat)
    returns (n: nat, f': Frame)
    requires Good(s, s) && Sim(s, st, f, base) && Within(EmitReady(s, ready), code) && AllShown(s, f, ready, shown)
    ensures Runs(code, Running(f), n, Running(f'))
    ensures Sim(EmitReady(s, ready), st.(log := st.log + Output(shown)), f', base) && Keeps(s, f, f')
    decreases |ready|
  {
    hide Good, Sim, Keeps, Within, PrintReady;
    if ready == [] {
      n, f' := 0, f;
      KeepsRefl(s, f);
      assert st.log + Output(shown) == st.log;
    } else {
      var s1 := PrintReady(s, ready[0]);
      PrintReadyGood(s, s, ready[0]);
      Refl(s, s1);
      ReadyGood(s1, s1, ready[1..]);
      WithinBack(s1, EmitReady(s1, ready[1..]), code);
      var n1, f1 := SimPrintReady(code, s, ready[0], shown[0], st, f, base);
      TmpGrows(s, s1);
      ShownKept(s, s1, f, f1, ready, shown);
      var st1 := st.(log := st.log + OutputOf(shown[0]));
      var n2;
      n2, f' := SimReady(code, s1, ready[1..], shown[1..], st1, f1, base);
      assert st.log + Output(shown) == st1.log + Output(shown[1..]);
      RunsTrans(code, Running(f), n1, Running(f1), n2, Running(f'));
      KeepsTrans(s, s1, f, f1, f');
      n := n1 + n2;
    }
  }
}
