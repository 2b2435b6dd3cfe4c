/** What every emitting step keeps: code only grows, numbers are fresh, labels are unique, and blocks are
    closed by exactly one terminator. */
module EmitStatic {
  import opened Wrappers
  import opened UbelSyntax
  import opened BlockCode
  import opened EmitSpec

  type Scopes = seq<map<Name, Local>>

  // ---------------------------------------------------------------- the invariant

  predicate IsLocal(scopes: Scopes, k: nat, x: Name) {
    k < |scopes| && x in scopes[k]
  }

  function SlotOf(scopes: Scopes, k: nat, x: Name): Slot
    requires IsLocal(scopes, k, x)
  {
    scopes[k][x].slot
  }

  /** Slots of the visible locals are numbered and pairwise distinct. */
  ghost predicate SlotsOk(scopes: Scopes, tmp: nat) {
      && (forall k: nat, x :: IsLocal(scopes, k, x) ==> 0 < SlotOf(scopes, k, x) <= tmp)
      && (forall j: nat, k: nat, x, y :: IsLocal(scopes, j, x) && IsLocal(scopes, k, y) && (j != k || x != y) ==>
            SlotOf(scopes, j, x) != SlotOf(scopes, k, y))
  }

  /** A label line follows a terminator, and a terminator ends its block. */
  ghost predicate BlocksClosed(body: Code) {
    && (|body| > 0 ==> !body[0].LabelLine?)
    && (forall i, j :: 0 <= i && j == i + 1 && j < |body| ==> (body[j].LabelLine? <==> body[i].TermLine?))
  }

  ghost predicate Ended(body: Code) {
    |body| > 0 && body[|body| - 1].TermLine?
  }

  ghost predicate LabelsOk(body: Code, lbl: nat) {
    UniqueLabels(body) && forall l: Label :: LabelLine(l) in body ==> 0 < l <= lbl
  }

  ghost predicate Inv(s: Em) {
    && |s.scopes| > 0
    && SlotsOk(s.scopes, s.tmp)
    && (forall a :: a in s.arenas ==> 0 < a <= s.tmp)
    && LabelsOk(s.body, s.lbl)
    && BlocksClosed(s.body)
    && (s.terminated <==> Ended(s.body))
  }

  /** Every label up to number `lbl` that is placed in `after` is placed in `before`. */
  ghost predicate NewLabelsAbove(before: Code, after: Code, lbl: nat) {
    forall l: Label :: LabelLine(l) in after && l <= lbl ==> LabelLine(l) in before
  }

  /** `b` continues `a`: only the innermost scope has new locals, and their slots are above `tmp`. */
  ghost predicate ScopesGrow(a: Scopes, b: Scopes, tmp: nat) {
      && |a| == |b| > 0
      && (forall k :: 0 <= k < |a| - 1 ==> a[k] == b[k])
      && (forall k: nat, x :: IsLocal(a, k, x) ==> IsLocal(b, k, x))
      && (forall k: nat, x :: IsLocal(b, k, x) ==>
            (IsLocal(a, k, x) && a[k][x] == b[k][x]) || SlotOf(b, k, x) > tmp)
  }

  ghost predicate Grows(s: Em, s': Em) {
    && s.body <= s'.body && s.tmp <= s'.tmp && s.lbl <= s'.lbl
    && NewLabelsAbove(s.body, s'.body, s.lbl)
    && s'.loops == s.loops && s'.arenas == s.arenas && s'.ret == s.ret
    && ScopesGrow(s.scopes, s'.scopes, s.tmp)
  }

  /** `s` is a sound state that continues `s0`. */
  ghost predicate Good(s0: Em, s: Em) {
    Inv(s) && Grows(s0, s)
  }

  /** A label that was handed out after `s0` and has not been placed. */
  ghost predicate Pending(s0: Em, s: Em, l: Label) {
    s0.lbl < l <= s.lbl && LabelLine(l) !in s.body
  }

  /** Nothing but the code and the label counter differs. */
  ghost predicate SameContext(s: Em, s': Em) {
    s'.scopes == s.scopes && s'.arenas == s.arenas && s'.loops == s.loops && s'.tmp == s.tmp && s'.ret == s.ret
  }

  // ---------------------------------------------------------------- primitive steps

  lemma CodeLine(body: Code, line: Line)
    requires BlocksClosed(body) && !Ended(body) && !line.LabelLine?
    ensures BlocksClosed(body + [line]) && (Ended(body + [line]) <==> line.TermLine?)
  {
    hide Good, Pending, SlotsOk, ScopesGrow;
  }

  lemma CodeLabel(body: Code, l: Label, lbl: nat)
    requires BlocksClosed(body) && Ended(body) && LabelsOk(body, lbl) && LabelLine(l) !in body && 0 < l <= lbl
    ensures BlocksClosed(body + [LabelLine(l)]) && !Ended(body + [LabelLine(l)])
    ensures LabelsOk(body + [LabelLine(l)], lbl)
  {
    hide Good, Pending, SlotsOk, ScopesGrow;
  }

  lemma LabelsKept(body: Code, line: Line, lbl: nat)
    requires LabelsOk(body, lbl) && !line.LabelLine?
    ensures LabelsOk(body + [line], lbl) && NewLabelsAbove(body, body + [line], lbl)
    ensures forall l: Label :: LabelLine(l) in body + [line] <==> LabelLine(l) in body
  {
    hide Good, Pending, SlotsOk, ScopesGrow;
  }

  lemma GoodTrans(s0: Em, s1: Em, s2: Em)
    requires Good(s0, s1) && Good(s1, s2)
    ensures Good(s0, s2)
  {
    hide SlotsOk, ScopesGrow;
    PrefixTrans(s0.body, s1.body, s2.body);
    ScopesTrans(s0.scopes, s1.scopes, s2.scopes, s0.tmp, s1.tmp);
  }

  lemma PrefixTrans(a: Code, b: Code, c: Code)
    requires a <= b && b <= c
    ensures a <= c
  {
    hide Good, Pending, SlotsOk, ScopesGrow;
  }

  lemma PendingGrows(s0: Em, s: Em, s': Em, l: Label)
    requires Pending(s0, s, l) && Good(s, s')
    ensures Pending(s0, s', l)
  {
    hide SlotsOk, ScopesGrow;
  }

  lemma InvGood(s: Em)
    requires Inv(s)
    ensures Good(s, s)
  {
    hide SlotsOk, ScopesGrow;
    SameScopes(s.scopes, s.tmp);
  }

  lemma GoodInv(s0: Em, s: Em)
    requires Good(s0, s)
    ensures Inv(s) && Good(s, s)
  {
    hide SlotsOk, ScopesGrow;
    InvGood(s);
  }

  lemma LineGood(s0: Em, s: Em, line: Line)
    requires Good(s0, s) && !s.terminated && !line.LabelLine?
    ensures Good(s0, AppendLine(s, line).(terminated := line.TermLine?))
  {
    hide SlotsOk, ScopesGrow;
    CodeLine(s.body, line);
    LabelsKept(s.body, line, s.lbl);
  }

  lemma LinePending(s0: Em, s: Em, line: Line, l: Label)
    requires Pending(s0, s, l) && line != LabelLine(l)
    ensures Pending(s0, AppendLine(s, line), l)
  {
    hide SlotsOk, ScopesGrow;
  }

  lemma PlaceGood(s0: Em, s: Em, l: Label)
    requires Good(s0, s) && s.terminated && Pending(s0, s, l)
    ensures Good(s0, AppendLine(s, LabelLine(l)).(terminated := false))
  {
    hide SlotsOk, ScopesGrow;
    CodeLabel(s.body, l, s.lbl);
  }

  lemma BeginGood(s0: Em, s: Em, l: Label)
    requires Good(s0, s) && Pending(s0, s, l)
    ensures Good(s0, Begin(s, l)) && SameContext(s, Begin(s, l)) && !Begin(s, l).terminated
  {
    hide SlotsOk, ScopesGrow;
    if s.terminated {
      PlaceGood(s0, s, l);
    } else {
      LineGood(s0, s, TermLine(Br(l)));
      LinePending(s0, s, TermLine(Br(l)), l);
      var open := AppendLine(s, TermLine(Br(l))).(terminated := true);
      assert Pending(s0, open, l);
      PlaceGood(s0, open, l);
    }
  }

  lemma BeginPending(s0: Em, s: Em, l: Label, k: Label)
    requires Pending(s0, s, k) && k != l
    ensures Pending(s0, Begin(s, l), k)
  {
    hide SlotsOk, ScopesGrow;
  }

  lemma LabelsGood(s0: Em, s: Em, n: nat)
    requires Good(s0, s)
    ensures Good(s0, NewLabels(s, n))
    ensures forall l: Label :: s.lbl < l <= s.lbl + n ==> Pending(s0, NewLabels(s, n), l)
  {
    hide SlotsOk, ScopesGrow;
  }

  lemma FreshGood(s0: Em, s: Em, n: nat)
    requires Good(s0, s)
    ensures Good(s0, Fresh(s, n))
  {
    hide SlotsOk, ScopesGrow;
    SlotsWider(s.scopes, s.tmp, s.tmp + n);
  }

  lemma OpenGood(s0: Em, s: Em)
    requires Good(s0, s)
    ensures Good(s0, OpenIfDead(s)) && Good(s, OpenIfDead(s)) && !OpenIfDead(s).terminated
    ensures SameContext(s, OpenIfDead(s))
  {
    hide Good, Pending, SlotsOk, ScopesGrow;
    GoodInv(s0, s);
    if s.terminated {
      LabelsGood(s, s, 1);
      BeginGood(s, NewLabels(s, 1), s.lbl + 1);
      GoodTrans(s0, s, OpenIfDead(s));
    }
  }

  lemma InstrGood(s0: Em, s: Em, i: Inst)
    requires Good(s0, s)
    ensures Good(s0, Instr(s, i)) && Good(s, Instr(s, i)) && !Instr(s, i).terminated
    ensures SameContext(s, Instr(s, i))
  {
    hide Good, Pending, SlotsOk, ScopesGrow;
    OpenGood(s0, s);
    LineGood(s0, OpenIfDead(s), InstLine(i));
    LineGood(s, OpenIfDead(s), InstLine(i));
    assert Instr(s, i) == AppendLine(OpenIfDead(s), InstLine(i)).(terminated := false);
  }

  lemma TermGood(s0: Em, s: Em, t: Term)
    requires Good(s0, s)
    ensures Good(s0, Terminate(s, t)) && Good(s, Terminate(s, t)) && Terminate(s, t).terminated
    ensures SameContext(s, Terminate(s, t))
  {
    hide Good, Pending, SlotsOk, ScopesGrow;
    OpenGood(s0, s);
    LineGood(s0, OpenIfDead(s), TermLine(t));
    LineGood(s, OpenIfDead(s), TermLine(t));
  }

  lemma DeclareGood(s0: Em, s: Em, x: Name, ty: Ty)
    requires Good(s0, s)
    ensures Good(s0, DeclareLocal(s, x, ty)) && DeclareLocal(s, x, ty).tmp == s.tmp + 1
  {
    hide Good, Pending, SlotsOk, ScopesGrow;
    GoodScopes(s0, s);
    DeclareShape(s, x, ty);
    DeclareSlots(s.scopes, s.tmp, x, ty);
    DeclareScopes(s.scopes, s.tmp, x, ty);
    RescopeGood(s, DeclareLocal(s, x, ty).scopes, s.tmp + 1);
    GoodTrans(s0, s, DeclareLocal(s, x, ty));
  }

  lemma GoodScopes(s0: Em, s: Em)
    requires Good(s0, s)
    ensures Good(s, s) && |s.scopes| > 0 && SlotsOk(s.scopes, s.tmp)
  {
    hide Good, Pending, SlotsOk, ScopesGrow;
    GoodInv(s0, s);
  }

  lemma DeclareShape(s: Em, x: Name, ty: Ty)
    requires |s.scopes| > 0
    ensures DeclareLocal(s, x, ty) ==
            s.(tmp := s.tmp + 1, scopes := WithLocal(s.scopes, x, Local(s.tmp + 1, ty)))
  {
  }

  lemma RescopeGood(s: Em, scopes: Scopes, tmp: nat)
    requires Good(s, s) && SlotsOk(scopes, tmp) && ScopesGrow(s.scopes, scopes, s.tmp) && s.tmp <= tmp
    requires |scopes| > 0
    ensures Good(s, s.(tmp := tmp, scopes := scopes))
  {
    hide SlotsOk, ScopesGrow;
  }

  lemma SlotsWider(scopes: Scopes, tmp: nat, more: nat)
    requires SlotsOk(scopes, tmp) && tmp <= more
    ensures SlotsOk(scopes, more)
  {
    hide Good, Pending;
  }

  lemma SameScopes(scopes: Scopes, tmp: nat)
    requires |scopes| > 0
    ensures ScopesGrow(scopes, scopes, tmp)
  {
    hide Good, Pending;
  }

  lemma ScopesTrans(a: Scopes, b: Scopes, c: Scopes, t: nat, u: nat)
    requires ScopesGrow(a, b, t) && ScopesGrow(b, c, u) && t <= u
    ensures ScopesGrow(a, c, t)
  {
    hide Good, Pending;
  }

  /** `more` is `scopes` with `x` in a new slot of the innermost scope. */
  function WithLocal(scopes: Scopes, x: Name, l: Local): Scopes
    requires |scopes| > 0
  {
    scopes[|scopes| - 1 := scopes[|scopes| - 1][x := l]]
  }

  lemma WithLocalAt(scopes: Scopes, x: Name, l: Local, k: nat, y: Name)
    requires |scopes| > 0
    ensures var more := WithLocal(scopes, x, l);
            && (IsLocal(more, k, y) <==> IsLocal(scopes, k, y) || (k == |scopes| - 1 && y == x))
            && (IsLocal(more, k, y) ==>
                  if k == |scopes| - 1 && y == x then more[k][y] == l else more[k][y] == scopes[k][y])
  {
  }

  lemma DeclareSlots(scopes: Scopes, tmp: nat, x: Name, ty: Ty)
    requires |scopes| > 0 && SlotsOk(scopes, tmp)
    ensures SlotsOk(WithLocal(scopes, x, Local(tmp + 1, ty)), tmp + 1)
  {
    hide WithLocal;
    var l := Local(tmp + 1, ty);
    forall k: nat, y
      ensures var more := WithLocal(scopes, x, l);
              && (IsLocal(more, k, y) <==> IsLocal(scopes, k, y) || (k == |scopes| - 1 && y == x))
              && (IsLocal(more, k, y) ==>
                    if k == |scopes| - 1 && y == x then SlotOf(more, k, y) == tmp + 1
                    else SlotOf(more, k, y) == SlotOf(scopes, k, y))
    {
      WithLocalAt(scopes, x, l, k, y);
    }
  }

  lemma DeclareScopes(scopes: Scopes, tmp: nat, x: Name, ty: Ty)
    requires |scopes| > 0
    ensures ScopesGrow(scopes, WithLocal(scopes, x, Local(tmp + 1, ty)), tmp)
  {
    var l := Local(tmp + 1, ty);
    forall k: nat, y
      ensures var more := WithLocal(scopes, x, l);
              && (IsLocal(scopes, k, y) ==> IsLocal(more, k, y))
              && (IsLocal(more, k, y) ==> (IsLocal(scopes, k, y) && scopes[k][y] == more[k][y]) || SlotOf(more, k, y) > tmp)
    {
      WithLocalAt(scopes, x, l, k, y);
    }
  }

  lemma PushSlots(scopes: Scopes, tmp: nat)
    requires SlotsOk(scopes, tmp)
    ensures SlotsOk(scopes + [map[]], tmp)
  {
    hide Good, Pending;
    forall k: nat, x | IsLocal(scopes + [map[]], k, x)
      ensures IsLocal(scopes, k, x) && SlotOf(scopes, k, x) == SlotOf(scopes + [map[]], k, x)
    {
    }
  }

  /** The scopes below the innermost one are untouched. */
  lemma PopSlots(scopes: Scopes, inner: Scopes, tmp: nat)
    requires ScopesGrow(scopes + [map[]], inner, tmp)
    ensures |inner| > 0 && inner[..|inner| - 1] == scopes
  {
    hide Good, Pending;
    forall k | 0 <= k < |scopes|
      ensures inner[k] == scopes[k]
    {
      assert (scopes + [map[]])[k] == scopes[k];
    }
  }

  lemma PushGood(s0: Em, s: Em)
    requires Good(s0, s)
    ensures Good(PushScope(s), PushScope(s))
  {
    hide SlotsOk, ScopesGrow;
    PushSlots(s.scopes, s.tmp);
    InvGood(PushScope(s));
  }

  /** A scope that is opened, used and left again. */
  lemma ScopeGood(s0: Em, s: Em, inner: Em)
    requires Good(s0, s) && Good(PushScope(s), inner)
    ensures Good(s, PopScope(inner)) && Good(s0, PopScope(inner)) && PopScope(inner).scopes == s.scopes
  {
    hide SlotsOk, ScopesGrow;
    assert Good(s, PopScope(inner)) && PopScope(inner).scopes == s.scopes by {
        PopSlots(s.scopes, inner.scopes, s.tmp);
      SlotsWider(s.scopes, s.tmp, inner.tmp);
      SameScopes(s.scopes, s.tmp);
    }
    GoodTrans(s0, s, PopScope(inner));
  }

  /** The loop context changes neither the code nor the numbers. */
  lemma LoopGood(s0: Em, s: Em, cont: Label, brk: Label)
    requires Good(s0, s)
    ensures Good(PushLoop(s, cont, brk), PushLoop(s, cont, brk))
  {
    hide SlotsOk, ScopesGrow;
    InvGood(PushLoop(s, cont, brk));
  }

  lemma PopLoopGood(s0: Em, s: Em, cont: Label, brk: Label, inner: Em)
    requires Good(s0, s) && Good(PushLoop(s, cont, brk), inner)
    ensures Good(s, PopLoop(inner)) && Good(s0, PopLoop(inner))
  {
    hide SlotsOk, ScopesGrow;
    assert Good(s, PopLoop(inner)) by {
        assert PopLoop(inner).loops == s.loops;
    }
    GoodTrans(s0, s, PopLoop(inner));
  }

  lemma DestroyGood(s0: Em, s: Em, k: nat, depth: nat)
    requires Good(s0, s) && k <= |s.arenas|
    ensures Good(s0, DestroyDown(s, k, depth))
    ensures k > depth ==> !DestroyDown(s, k, depth).terminated
    ensures SameContext(s, DestroyDown(s, k, depth))
    decreases k
  {
    hide Good, Pending, SlotsOk, ScopesGrow;
    if k > depth {
      var s1 := Instr(s, ArenaDestroy(s.arenas[k - 1]));
      InstrGood(s0, s, ArenaDestroy(s.arenas[k - 1]));
      DestroyGood(s0, s1, k - 1, depth);
    }
  }

  lemma CreateGood(s0: Em, v: Emitted)
    requires Good(s0, v.s)
    ensures Good(CreateArena(v), CreateArena(v))
  {
    hide SlotsOk, ScopesGrow;
    FreshGood(s0, v.s, 1);
    var s := Fresh(v.s, 1);
    InstrGood(s0, s, ArenaCreate(s.tmp, v.v));
    assert Inv(CreateArena(v));
    InvGood(CreateArena(v));
  }

  /** An arena that is created, used and left again. */
  lemma ArenaGood(s0: Em, v: Emitted, inner: Em)
    requires Good(s0, v.s) && Good(CreateArena(v), inner)
    ensures Good(s0, LeaveArena(inner)) && LeaveArena(inner).scopes == inner.scopes
    ensures CreateArena(v).scopes == v.s.scopes
  {
    hide SlotsOk, ScopesGrow;
    var s := Fresh(v.s, 1);
    FreshGood(s0, v.s, 1);
    GoodInv(s0, s);
    InstrGood(s, s, ArenaCreate(s.tmp, v.v));
    GoodInv(CreateArena(v), inner);
    var a := CreateArena(v).arenas[|CreateArena(v).arenas| - 1];
    var left := if inner.terminated then inner else Instr(inner, ArenaDestroy(a));
    if !inner.terminated {
      InstrGood(CreateArena(v), inner, ArenaDestroy(a));
    }
    assert Good(s, LeaveArena(inner)) by {
        PrefixTrans(s.body, CreateArena(v).body, left.body);
      ScopesTrans(s.scopes, CreateArena(v).scopes, left.scopes, s.tmp, s.tmp);
      assert left.arenas[..|left.arenas| - 1] == s.arenas;
    }
    GoodTrans(s0, s, LeaveArena(inner));
  }

  lemma EndBranchGood(s0: Em, s: Em, end: Label)
    requires Good(s0, s)
    ensures Good(s0, EndBranch(s, end)) && EndBranch(s, end).terminated && Good(s, EndBranch(s, end))
    ensures SameContext(s, EndBranch(s, end))
  {
    hide Good, Pending, SlotsOk, ScopesGrow;
    GoodInv(s0, s);
    if !s.terminated {
      TermGood(s0, s, Br(end));
    }
  }
}
