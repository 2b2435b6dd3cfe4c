/** The built graph and the structured body have the same executions. */
module CfgCorrect {
  import opened Wrappers
  import opened Cfg
  import opened CfgRuns
  import opened CfgPaths

  // ---------------------------------------------------------------- every execution is a path

  lemma {:induction false} BlockRunIsPath(g: Graph, before: Graph, loops: LoopStack, stmts: seq<Stmt>, cur: BlockId,
                       choices: seq<nat>) returns (ps: seq<Pos>)
    requires cur < |before| && LoopsWithin(loops, g)
    requires Contains(g, before, cur, BuildBlock(before, loops, stmts, cur))
    ensures Follows(g, ps, Start(before, cur), BuildBlock(before, loops, stmts, cur), loops,
                    RunBlock(stmts, choices))
    decreases |choices|, stmts, 0
  {
    if stmts == [] {
      ps := [Start(before, cur)];
    } else {
      ContainsCons(g, before, loops, stmts, cur);
      ps := StmtRunIsPath(g, before, loops, stmts[0], cur, choices);
      var r := RunStmt(stmts[0], choices);
      if r.outcome == Normal {
        var first := BuildStmt(before, loops, stmts[0], cur);
        var qs := BlockRunIsPath(g, first.graph, loops, stmts[1..], first.tail.value, r.rest);
        ps := JoinPaths(g, ps, qs);
      }
    }
  }

  lemma {:induction false} StmtRunIsPath(g: Graph, before: Graph, loops: LoopStack, s: Stmt, cur: BlockId,
                      choices: seq<nat>) returns (ps: seq<Pos>)
    requires cur < |before| && LoopsWithin(loops, g)
    requires Contains(g, before, cur, BuildStmt(before, loops, s, cur))
    ensures Follows(g, ps, Start(before, cur), BuildStmt(before, loops, s, cur), loops, RunStmt(s, choices))
    decreases |choices|, s, 0
  {
    hide BuildArms, BuildBranches, BuildBlock, BuildLoop, BuildCondLoop, RunArms, RunLoop, RunCondLoop, RunBlock, Edge,
         Labels, IsPath, AtExit;
    LogStep(g, before, loops, s, cur);
    var logged := WithStmt(before, cur, s);
    var p := Start(before, cur);
    match s {
      case Plain(_) => ps := StepRunIsPath(g, before, loops, s, cur, choices);
      case Return(_) => ps := StepRunIsPath(g, before, loops, s, cur, choices);
      case Break(_) => ps := StepRunIsPath(g, before, loops, s, cur, choices);
      case Continue(_) => ps := StepRunIsPath(g, before, loops, s, cur, choices);
      case If(_, branches, hasElse) =>
        ps := ArmsRunIsPath(g, logged, loops, branches, !hasElse, cur, choices);
        ps := PrependStep(g, p, ps);
      case Match(_, arms) =>
        ps := ArmsRunIsPath(g, logged, loops, arms, false, cur, choices);
        ps := PrependStep(g, p, ps);
      case CondLoop(_, body) =>
        ps := CondLoopFromStart(g, logged, loops, body, cur, choices);
        ps := PrependStep(g, p, ps);
      case Loop(_, body) =>
        ps := LoopFromStart(g, logged, loops, body, cur, choices);
        ps := PrependStep(g, p, ps);
      case Scope(_, body) =>
        ps := BlockRunIsPath(g, logged, loops, body, cur, choices);
        ps := PrependStep(g, p, ps);
    }
  }

  /** A statement without statements in it. */
  lemma StepRunIsPath(g: Graph, before: Graph, loops: LoopStack, s: Stmt, cur: BlockId, choices: seq<nat>)
    returns (ps: seq<Pos>)
    requires cur < |before| && LoopsWithin(loops, g) && (s.Plain? || s.Return? || s.Break? || s.Continue?)
    requires Contains(g, before, cur, BuildStmt(before, loops, s, cur))
    ensures Follows(g, ps, Start(before, cur), BuildStmt(before, loops, s, cur), loops, RunStmt(s, choices))
  {
    hide Labels;
    LogStep(g, before, loops, s, cur);
    var p, q := Start(before, cur), Start(WithStmt(before, cur, s), cur);
    if s.Break? || s.Continue? {
      ps := JumpPath(g, p, q, loops, loops != []);
    } else {
      ps := PrependStep(g, p, [q]);
      OnePos(g, q);
    }
  }

  /** The path that stays where it is. */
  lemma OnePos(g: Graph, q: Pos)
    ensures Labels(g, [q]) == [] && IsPath(g, [q])
  {
  }

  lemma {:induction false} CondLoopFromStart(g: Graph, before: Graph, loops: LoopStack, body: seq<Stmt>, cur: BlockId,
                          choices: seq<nat>) returns (ps: seq<Pos>)
    requires cur < |before| && LoopsWithin(loops, g)
    requires Contains(g, before, cur, BuildCondLoop(before, loops, body, cur))
    ensures Follows(g, ps, Start(before, cur), BuildCondLoop(before, loops, body, cur), loops,
                    RunCondLoop(body, choices))
    decreases |choices|, body, 5
  {
    ContainsCondLoop(g, before, loops, body, cur);
    ps := CondLoopRunIsPath(g, before, loops, body, cur, choices);
    ps := PrependStep(g, Start(before, cur), ps);
  }

  lemma {:induction false} LoopFromStart(g: Graph, before: Graph, loops: LoopStack, body: seq<Stmt>, cur: BlockId,
                      choices: seq<nat>) returns (ps: seq<Pos>)
    requires cur < |before| && LoopsWithin(loops, g)
    requires Contains(g, before, cur, BuildLoop(before, loops, body, cur))
    ensures Follows(g, ps, Start(before, cur), BuildLoop(before, loops, body, cur), loops, RunLoop(body, choices))
    decreases |choices|, body, 5
  {
    ContainsLoop(g, before, loops, body, cur);
    ps := LoopRunIsPath(g, before, loops, body, cur, choices);
    ps := PrependStep(g, Start(before, cur), ps);
  }

  /** Logs a statement and, inside a loop, takes the jump that ends its block. */
  lemma JumpPath(g: Graph, p: Pos, q: Pos, loops: LoopStack, jumps: bool) returns (ps: seq<Pos>)
    requires Edge(g, p, q) && p.index < |g[p.block].stmts|
    requires jumps ==> q.index == |g[q.block].stmts| && g[q.block].terminator.Goto? &&
                       g[q.block].terminator.target < |g|
    ensures IsPath(g, ps) && ps[0] == p && Labels(g, ps) == Label(g, p)
    ensures Last(ps) == if jumps then Pos(g[q.block].terminator.target, 0) else q
  {
    ps := PrependStep(g, p, [q]);
    if jumps {
      ps := AppendStep(g, ps, Pos(g[q.block].terminator.target, 0));
    }
  }

  lemma {:induction false} ArmsRunIsPath(g: Graph, before: Graph, loops: LoopStack, bodies: seq<Body>, skip: bool,
                      cur: BlockId, choices: seq<nat>) returns (ps: seq<Pos>)
    requires cur < |before| && LoopsWithin(loops, g)
    requires Contains(g, before, cur, BuildArms(before, loops, bodies, skip, cur))
    ensures Follows(g, ps, Start(before, cur), BuildArms(before, loops, bodies, skip, cur), loops,
                    RunArms(bodies, skip, choices))
    decreases |choices|, bodies, 0
  {
    hide BuildArms, BuildBlock, RunBlock, RunBody, Labels, IsPath, AtExit;
    ArmsSuccessors(g, before, loops, bodies, skip, cur);
    var p := Start(before, cur);
    var r := BuildArms(before, loops, bodies, skip, cur);
    ps := [p];
    OnePos(g, p);
    if choices != [] && choices[0] < |bodies| {
      ps := ArmRunIsPath(g, before, loops, bodies, skip, cur, choices);
      ps := PrependStep(g, p, ps);
    } else if choices != [] && skip && choices[0] == |bodies| {
      var e := Pos(Successors(g[cur])[|bodies|], 0);
      OnePos(g, e);
      ps := PrependStep(g, p, [e]);
      ps := AppendStep(g, ps, Pos(r.tail.value, 0));
    }
  }

  /** The chosen branch, and on to the block where the branches join. */
  lemma {:induction false} ArmRunIsPath(g: Graph, before: Graph, loops: LoopStack, bodies: seq<Body>, skip: bool,
                     cur: BlockId, choices: seq<nat>) returns (ps: seq<Pos>)
    requires cur < |before| && LoopsWithin(loops, g) && choices != [] && choices[0] < |bodies|
    requires Contains(g, before, cur, BuildArms(before, loops, bodies, skip, cur)) && choices[0] < |Successors(g[cur])|
    ensures Successors(g[cur])[choices[0]] < |g|
    ensures Follows(g, ps, Pos(Successors(g[cur])[choices[0]], 0), BuildArms(before, loops, bodies, skip, cur), loops,
                    RunBody(bodies[choices[0]], choices[1..]))
    decreases |choices|, bodies[choices[0]], 1
  {
    var c := choices[0];
    hide BuildArms, BuildBlock, RunBlock, RunBody, Labels, IsPath, AtExit, Contains;
    var mid := ContainsArm(g, before, loops, bodies, skip, cur, c);
    var r := BuildArms(before, loops, bodies, skip, cur);
    ArmsSuccessors(g, before, loops, bodies, skip, cur);
    ps := BlockRunIsPath(g, mid + [EMPTY_BLOCK], loops, BodyStmts(bodies[c]), |mid|, choices[1..]);
    BodyRun(bodies[c], choices[1..]);
    if RunBody(bodies[c], choices[1..]).outcome == Normal {
      ps := AppendStep(g, ps, Pos(r.tail.value, 0));
    }
  }

  lemma BodyRun(b: Body, choices: seq<nat>)
    ensures RunBlock(BodyStmts(b), choices) == RunBody(b, choices)
  {
  }

  lemma {:induction false} CondLoopRunIsPath(g: Graph, before: Graph, loops: LoopStack, body: seq<Stmt>, cur: BlockId,
                          choices: seq<nat>) returns (ps: seq<Pos>)
    requires cur < |before| && LoopsWithin(loops, g)
    requires Contains(g, before, cur, BuildCondLoop(before, loops, body, cur))
    ensures Follows(g, ps, Pos(|before|, 0), BuildCondLoop(before, loops, body, cur), loops,
                    RunCondLoop(body, choices))
    decreases |choices|, body, 3
  {
    hide BuildBlock, RunBlock, Labels, IsPath, AtExit;
    ContainsCondLoop(g, before, loops, body, cur);
    var h := Pos(|before|, 0);
    ps := [h];
    OnePos(g, h);
    if choices != [] && choices[0] == 1 {
      OnePos(g, Pos(|before| + 2, 0));
      ps := PrependStep(g, h, [Pos(|before| + 2, 0)]);
    } else if choices != [] && choices[0] == 0 {
      ps := CondLoopTurnIsPath(g, before, loops, body, cur, choices[1..]);
      ps := PrependStep(g, h, ps);
    }
  }

  /** Once through the body, and on from there. */
  lemma {:induction false} CondLoopTurnIsPath(g: Graph, before: Graph, loops: LoopStack, body: seq<Stmt>, cur: BlockId,
                           choices: seq<nat>) returns (ps: seq<Pos>)
    requires cur < |before| && LoopsWithin(loops, g)
    requires Contains(g, before, cur, BuildCondLoop(before, loops, body, cur))
    ensures Follows(g, ps, Pos(|before| + 1, 0), BuildCondLoop(before, loops, body, cur), loops,
                    RunCondLoop(body, [0] + choices))
    decreases |choices|, body, 4
  {
    ContainsCondLoop(g, before, loops, body, cur);
    assert ([0] + choices)[1..] == choices;
    hide BuildCondLoop, BuildBlock, RunBlock, Labels, IsPath, Contains, AtExit;
    ps := CondLoopBodyIsPath(g, before, loops, body, cur, choices);
    var once := RunBlock(body, choices);
    if once.outcome == Normal || once.outcome == Continued {
      var qs := CondLoopRunIsPath(g, before, loops, body, cur, once.rest);
      ps := JoinPaths(g, ps, qs);
    }
  }

  /** Once through the body: back to the header, or out of the loop. */
  lemma {:induction false} CondLoopBodyIsPath(g: Graph, before: Graph, loops: LoopStack, body: seq<Stmt>, cur: BlockId,
                           choices: seq<nat>) returns (ps: seq<Pos>)
    requires cur < |before| && LoopsWithin(loops, g)
    requires Contains(g, before, cur, BuildCondLoop(before, loops, body, cur))
    ensures IsPath(g, ps) && ps[0] == Pos(|before| + 1, 0) && Labels(g, ps) == RunBlock(body, choices).trace
    ensures var o := RunBlock(body, choices).outcome;
            && (o == Normal || o == Continued ==> Last(ps) == Pos(|before|, 0))
            && (o == Broke ==> Last(ps) == Pos(|before| + 2, 0))
            && (o == Returned ==> AtExit(g, Last(ps)))
    decreases |choices|, body, 1
  {
    ContainsCondLoop(g, before, loops, body, cur);
    var open := OpenCondLoop(before, cur);
    var inner := loops + [(|before|, |before| + 2)];
    ps := BlockRunIsPath(g, open, inner, body, |before| + 1, choices);
    if RunBlock(body, choices).outcome == Normal {
      assert Label(g, Last(ps)) == [];
      ps := AppendStep(g, ps, Pos(|before|, 0));
    }
  }

  lemma {:induction false} LoopRunIsPath(g: Graph, before: Graph, loops: LoopStack, body: seq<Stmt>, cur: BlockId,
                      choices: seq<nat>) returns (ps: seq<Pos>)
    requires cur < |before| && LoopsWithin(loops, g)
    requires Contains(g, before, cur, BuildLoop(before, loops, body, cur))
    ensures Follows(g, ps, Pos(|before|, 0), BuildLoop(before, loops, body, cur), loops, RunLoop(body, choices))
    decreases |choices|, body, 3
  {
    ContainsLoop(g, before, loops, body, cur);
    ps := LoopBodyIsPath(g, before, loops, body, cur, choices);
    var once := RunBlock(body, choices);
    if (once.outcome == Normal || once.outcome == Continued) && once.rest != [] {
      var qs := LoopRunIsPath(g, before, loops, body, cur, once.rest[1..]);
      ps := JoinPaths(g, ps, qs);
    }
  }

  /** Once through the body: back to the header, or out of the loop. */
  lemma {:induction false} LoopBodyIsPath(g: Graph, before: Graph, loops: LoopStack, body: seq<Stmt>, cur: BlockId,
                       choices: seq<nat>) returns (ps: seq<Pos>)
    requires cur < |before| && LoopsWithin(loops, g)
    requires Contains(g, before, cur, BuildLoop(before, loops, body, cur))
    ensures IsPath(g, ps) && ps[0] == Pos(|before|, 0) && Labels(g, ps) == RunBlock(body, choices).trace
    ensures var o := RunBlock(body, choices).outcome;
            && (o == Normal || o == Continued ==> Last(ps) == Pos(|before|, 0))
            && (o == Broke ==> Last(ps) == Pos(|before| + 1, 0))
            && (o == Returned ==> AtExit(g, Last(ps)))
    decreases |choices|, body, 1
  {
    ContainsLoop(g, before, loops, body, cur);
    var inner := loops + [(|before|, |before| + 1)];
    ps := BlockRunIsPath(g, OpenLoop(before, cur), inner, body, |before|, choices);
    if RunBlock(body, choices).outcome == Normal {
      assert Label(g, Last(ps)) == [];
      ps := AppendStep(g, ps, Pos(|before|, 0));
    }
  }

  // ---------------------------------------------------------------- every path is an execution

  /** The path stops inside a part: it logs the beginning of `run`, or all of it if it ends at an exit of the function. */
  ghost predicate Stops(g: Graph, ps: seq<Pos>, run: Run)
    requires |ps| > 0
  {
    && Labels(g, ps) <= run.trace
    && (AtExit(g, Last(ps)) ==> run.trace == Labels(g, ps) && run.outcome == Returned)
  }

  /** How `ps`, which begins at the start of a part, relates to the executions of that part: with
      `o == Cut` it stays inside; otherwise its first `k` steps are exactly `run`, which leaves the part
      with outcome `o`. */
  ghost predicate Explains(g: Graph, ps: seq<Pos>, r: Built, loops: LoopStack, run: Run, k: nat, o: Outcome) {
    && k < |ps|
    && match o
       case Cut => Stops(g, ps, run)
       case Returned => false
       case Normal =>
         run == Run(Labels(g, ps[..k + 1]), Normal, []) && Leaves(o, r, loops, ps[k])
       case _ =>
         run == Run(Labels(g, ps[..k + 1]), o, []) && Leaves(o, r, loops, ps[k]) && loops != [] && k > 0
  }

  /** Shifts an explanation by one step at the front. */
  lemma ExplainAfter(g: Graph, ps: seq<Pos>, r: Built, loops: LoopStack, run: Run, k: nat, o: Outcome)
    requires |ps| > 1 && Explains(g, ps[1..], r, loops, run, k, o)
    ensures Explains(g, ps, r, loops, After(Label(g, ps[0]), run), k + 1, o)
  {
    assert ps[1..][..k + 1] == ps[..k + 2][1..];
  }

  lemma {:induction false} BlockPathIsRun(g: Graph, before: Graph, loops: LoopStack, stmts: seq<Stmt>, cur: BlockId,
                       ps: seq<Pos>) returns (choices: seq<nat>, k: nat, o: Outcome)
    requires cur < |before| && IsPath(g, ps) && ps[0] == Start(before, cur)
    requires Contains(g, before, cur, BuildBlock(before, loops, stmts, cur))
    ensures Explains(g, ps, BuildBlock(before, loops, stmts, cur), loops, RunBlock(stmts, choices), k, o)
    decreases |ps|, stmts, 0
  {
    hide Edge, Contains, Label, Frames, BuildStmt, RunStmt;
    if stmts == [] {
      choices, k, o := [], 0, Normal;
      assert |ps[..1]| == 1;
    } else {
      ContainsCons(g, before, loops, stmts, cur);
      choices, k, o := StmtPathIsRun(g, before, loops, stmts[0], cur, ps);
      if o == Normal {
        var first := BuildStmt(before, loops, stmts[0], cur);
        PathSuffix(g, ps, k);
        var choices', k', o' := BlockPathIsRun(g, first.graph, loops, stmts[1..], first.tail.value, ps[k..]);
        ExplainCons(g, ps, before, loops, stmts, cur, choices, k, choices', k', o');
        choices, k, o := choices + choices', k + k', o';
      }
    }
  }

  /** Explains a path through a sequence by its first statement and the others. */
  lemma ExplainCons(g: Graph, ps: seq<Pos>, before: Graph, loops: LoopStack, stmts: seq<Stmt>, cur: BlockId,
                    choices: seq<nat>, k: nat, choices': seq<nat>, more: nat, o: Outcome)
    requires cur < |before| && stmts != [] && k < |ps|
    requires BuildStmt(before, loops, stmts[0], cur).tail.Some?
    requires RunStmt(stmts[0], choices) == Run(Labels(g, ps[..k + 1]), Normal, [])
    requires Explains(g, ps[k..], BuildBlock(before, loops, stmts, cur), loops, RunBlock(stmts[1..], choices'), more, o)
    ensures Explains(g, ps, BuildBlock(before, loops, stmts, cur), loops,
                     RunBlock(stmts, choices + choices'), k + more, o)
  {
    MoreChoicesStmt(stmts[0], choices, choices');
    assert [] + choices' == choices';
    var r := BuildBlock(before, loops, stmts, cur);
    ExplainThen(g, ps, r, loops, RunStmt(stmts[0], choices), k, RunBlock(stmts[1..], choices'), more, o);
  }

  /** Explains a path whose first `k` steps complete `first` and whose others are explained by `others`. */
  lemma ExplainThen(g: Graph, ps: seq<Pos>, r: Built, loops: LoopStack, first: Run, k: nat,
                    others: Run, more: nat, o: Outcome)
    requires k < |ps| && first.trace == Labels(g, ps[..k + 1])
    requires Explains(g, ps[k..], r, loops, others, more, o)
    ensures Explains(g, ps, r, loops, After(first.trace, others), k + more, o)
  {
    ExplainJoin(g, ps, k, more);
    assert ps[k..][more] == ps[k + more];
  }

  /** The labels of a path taken in two parts. */
  lemma ExplainJoin(g: Graph, ps: seq<Pos>, k: nat, more: nat)
    requires k + more < |ps|
    ensures Labels(g, ps) == Labels(g, ps[..k + 1]) + Labels(g, ps[k..])
    ensures Labels(g, ps[..k + more + 1]) == Labels(g, ps[..k + 1]) + Labels(g, ps[k..][..more + 1])
  {
    LabelsSplit(g, ps, k);
    var front := ps[..k + more + 1];
    LabelsSplit(g, front, k);
    assert front[..k + 1] == ps[..k + 1] && front[k..] == ps[k..][..more + 1];
  }

  lemma FirstStep(g: Graph, before: Graph, loops: LoopStack, s: Stmt, cur: BlockId, ps: seq<Pos>)
    requires cur < |before| && IsPath(g, ps) && ps[0] == Start(before, cur) && |ps| > 1
    requires Contains(g, before, cur, BuildStmt(before, loops, s, cur))
    ensures IsPath(g, ps[1..]) && ps[1] == Start(WithStmt(before, cur, s), cur) && Label(g, ps[0]) == [s]
  {
    hide BuildStmt, Contains;
    LogStep(g, before, loops, s, cur);
    assert Edge(g, ps[0], ps[0 + 1]);
    PathSuffix(g, ps, 1);
  }

  lemma {:induction false} StmtPathIsRun(g: Graph, before: Graph, loops: LoopStack, s: Stmt, cur: BlockId,
                      ps: seq<Pos>) returns (choices: seq<nat>, k: nat, o: Outcome)
    requires cur < |before| && IsPath(g, ps) && ps[0] == Start(before, cur)
    requires Contains(g, before, cur, BuildStmt(before, loops, s, cur))
    ensures Explains(g, ps, BuildStmt(before, loops, s, cur), loops, RunStmt(s, choices), k, o)
    decreases |ps|, s, 0
  {
    hide BuildArms, BuildBranches, BuildBlock, BuildLoop, BuildCondLoop, RunArms, RunLoop, RunCondLoop, RunBlock, Edge,
         Labels, IsPath;
    var logged := WithStmt(before, cur, s);
    choices, k, o := [], 0, Cut;
    if |ps| <= 1 {
      AtStart(g, before, loops, s, cur, ps);
    } else {
      FirstStep(g, before, loops, s, cur, ps);
      match s {
        case Plain(_) => k, o := StepPathIsRun(g, before, loops, s, cur, ps);
        case Return(_) => k, o := StepPathIsRun(g, before, loops, s, cur, ps);
        case Break(_) => k, o := StepPathIsRun(g, before, loops, s, cur, ps);
        case Continue(_) => k, o := StepPathIsRun(g, before, loops, s, cur, ps);
        case If(_, branches, hasElse) =>
          choices, k, o := ArmsPathIsRun(g, logged, loops, branches, !hasElse, cur, ps[1..]);
          ExplainAfter(g, ps, BuildStmt(before, loops, s, cur), loops, RunArms(branches, !hasElse, choices), k, o);
          k := k + 1;
        case Match(_, arms) =>
          choices, k, o := ArmsPathIsRun(g, logged, loops, arms, false, cur, ps[1..]);
          ExplainAfter(g, ps, BuildStmt(before, loops, s, cur), loops, RunArms(arms, false, choices), k, o);
          k := k + 1;
        case CondLoop(_, body) =>
          choices, k, o := EnteredCondLoop(g, logged, loops, body, cur, ps[1..]);
          ExplainAfter(g, ps, BuildStmt(before, loops, s, cur), loops, RunCondLoop(body, choices), k, o);
          k := k + 1;
        case Loop(_, body) =>
          choices, k, o := EnteredLoop(g, logged, loops, body, cur, ps[1..]);
          ExplainAfter(g, ps, BuildStmt(before, loops, s, cur), loops, RunLoop(body, choices), k, o);
          k := k + 1;
        case Scope(_, body) =>
          choices, k, o := BlockPathIsRun(g, logged, loops, body, cur, ps[1..]);
          ExplainAfter(g, ps, BuildStmt(before, loops, s, cur), loops, RunBlock(body, choices), k, o);
          k := k + 1;
      }
    }
  }

  /** A path that has not yet logged the statement. */
  lemma AtStart(g: Graph, before: Graph, loops: LoopStack, s: Stmt, cur: BlockId, ps: seq<Pos>)
    requires cur < |before| && IsPath(g, ps) && |ps| <= 1 && ps[0] == Start(before, cur)
    requires Contains(g, before, cur, BuildStmt(before, loops, s, cur))
    ensures Explains(g, ps, BuildStmt(before, loops, s, cur), loops, RunStmt(s, []), 0, Cut)
  {
    hide BuildStmt, RunStmt, Contains;
    LogStep(g, before, loops, s, cur);
  }

  /** A statement without statements in it. */
  lemma StepPathIsRun(g: Graph, before: Graph, loops: LoopStack, s: Stmt, cur: BlockId, ps: seq<Pos>)
    returns (k: nat, o: Outcome)
    requires cur < |before| && IsPath(g, ps) && ps[0] == Start(before, cur) && |ps| > 1
    requires s.Plain? || s.Return? || s.Break? || s.Continue?
    requires Contains(g, before, cur, BuildStmt(before, loops, s, cur))
    ensures Explains(g, ps, BuildStmt(before, loops, s, cur), loops, RunStmt(s, []), k, o)
  {
    hide Edge, Labels, IsPath;
    FirstStep(g, before, loops, s, cur, ps);
    match s {
      case Plain(_) => k, o := 1, Normal; LabelsOfStep(g, ps);
      case Return(_) => k, o := 0, Cut; StuckAfter(g, ps, 1);
      case Break(_) => k, o := JumpStep(g, ps, loops, Broke);
      case Continue(_) => k, o := JumpStep(g, ps, loops, Continued);
    }
  }

  lemma LabelsOfStep(g: Graph, ps: seq<Pos>)
    requires |ps| > 1
    ensures Labels(g, ps[..2]) == Label(g, ps[0])
  {
    assert ps[..2][1..] == [ps[1]];
  }

  lemma LabelsOfTwoSteps(g: Graph, ps: seq<Pos>)
    requires |ps| > 2 && Label(g, ps[1]) == []
    ensures Labels(g, ps[..3]) == Label(g, ps[0])
  {
    var last := [ps[1], ps[2]];
    assert ps[..3][1..] == last && last[1..] == [ps[2]];
    assert Labels(g, last) == Label(g, ps[1]) + Labels(g, [ps[2]]);
  }

  /** A path goes on from the end of a block only if the block has a successor. */
  lemma StuckAfter(g: Graph, ps: seq<Pos>, k: nat)
    requires IsPath(g, ps) && k < |ps|
    requires ps[k].block < |g| && ps[k].index == |g[ps[k].block].stmts|
    ensures k + 1 < |ps| ==> Successors(g[ps[k].block]) != []
    ensures |ps| == 2 && k == 1 ==> Labels(g, ps) == Label(g, ps[0])
  {
    if k + 1 < |ps| {
      assert Edge(g, ps[k], ps[k + 1]);
    } else if k == 1 {
      assert ps == ps[..2];
      LabelsOfStep(g, ps);
    }
  }

  /** A path through a `break` or `continue`. */
  lemma JumpStep(g: Graph, ps: seq<Pos>, loops: LoopStack, outcome: Outcome) returns (k: nat, o: Outcome)
    requires IsPath(g, ps) && |ps| > 1 && (outcome == Broke || outcome == Continued)
    requires ps[1].block < |g| && ps[1].index == |g[ps[1].block].stmts|
    requires g[ps[1].block].terminator == if outcome == Broke then BreakTarget(loops) else ContinueTarget(loops)
    ensures k < |ps| && (o == Cut || o == outcome)
    ensures o == Cut ==> Labels(g, ps) == Label(g, ps[0]) && !AtExit(g, Last(ps))
    ensures o == outcome ==> Labels(g, ps[..k + 1]) == Label(g, ps[0]) && loops != [] && k > 0
    ensures o == outcome ==> ps[k] == Pos(g[ps[1].block].terminator.target, 0)
  {
    hide Labels;
    if |ps| == 2 {
      StuckAfter(g, ps, 1);
      k, o := 0, Cut;
    } else {
      StuckAfter(g, ps, 1);
      assert Edge(g, ps[1], ps[1 + 1]);
      k, o := 2, outcome;
      LabelsOfTwoSteps(g, ps);
    }
  }

  lemma {:induction false} ArmsPathIsRun(g: Graph, before: Graph, loops: LoopStack, bodies: seq<Body>, skip: bool,
                      cur: BlockId, ps: seq<Pos>) returns (choices: seq<nat>, k: nat, o: Outcome)
    requires cur < |before| && IsPath(g, ps) && ps[0] == Start(before, cur)
    requires Contains(g, before, cur, BuildArms(before, loops, bodies, skip, cur))
    ensures Explains(g, ps, BuildArms(before, loops, bodies, skip, cur), loops, RunArms(bodies, skip, choices), k, o)
    decreases |ps|, bodies, 0
  {
    hide BuildArms, BuildBranches, BuildBlock, BuildStmt, RunBody;
    ArmsSuccessors(g, before, loops, bodies, skip, cur);
    choices, k, o := [], 0, Cut;
    if |ps| > 1 {
      assert Edge(g, ps[0], ps[0 + 1]);
      PathSuffix(g, ps, 1);
      var c :| 0 <= c < |Successors(g[cur])| && Successors(g[cur])[c] == ps[1].block;
      if c < |bodies| {
        choices, k, o := ArmPathIsRun(g, before, loops, bodies, skip, cur, c, ps[1..]);
        ExplainAfter(g, ps, BuildArms(before, loops, bodies, skip, cur), loops, RunBody(bodies[c], choices), k, o);
        assert ([c] + choices)[1..] == choices;
        choices, k := [c] + choices, k + 1;
      } else {
        k, o := SkipStep(g, ps);
        choices := [c];
      }
    }
  }

  /** A path through the pass-through branch. */
  lemma SkipStep(g: Graph, ps: seq<Pos>) returns (k: nat, o: Outcome)
    requires IsPath(g, ps) && |ps| > 1 && Label(g, ps[0]) == []
    requires ps[1].block < |g| && ps[1].index == 0 && g[ps[1].block].stmts == []
    requires g[ps[1].block].terminator.Goto?
    ensures k < |ps| && (o == Cut || o == Normal)
    ensures o == Cut ==> Labels(g, ps) == [] && !AtExit(g, Last(ps))
    ensures o == Normal ==> Labels(g, ps[..k + 1]) == [] && ps[k] == Pos(g[ps[1].block].terminator.target, 0)
  {
    LabelsOfStep(g, ps);
    if |ps| == 2 {
      assert ps == ps[..2];
      k, o := 0, Cut;
    } else {
      assert Edge(g, ps[1], ps[1 + 1]);
      k, o := 2, Normal;
      LabelsOfTwoSteps(g, ps);
    }
  }

  /** A path that has entered branch `c`. */
  lemma {:induction false} ArmPathIsRun(g: Graph, before: Graph, loops: LoopStack, bodies: seq<Body>, skip: bool,
                     cur: BlockId, c: nat, ps: seq<Pos>) returns (choices: seq<nat>, k: nat, o: Outcome)
    requires cur < |before| && Contains(g, before, cur, BuildArms(before, loops, bodies, skip, cur))
    requires c < |bodies| && c < |Successors(g[cur])|
    requires IsPath(g, ps) && ps[0] == Pos(Successors(g[cur])[c], 0)
    ensures Explains(g, ps, BuildArms(before, loops, bodies, skip, cur), loops, RunBody(bodies[c], choices), k, o)
    decreases |ps|, bodies[c], 1
  {
    hide BuildArms, BuildBranches;
    var r := BuildArms(before, loops, bodies, skip, cur);
    ArmsSuccessors(g, before, loops, bodies, skip, cur);
    var mid := ContainsArm(g, before, loops, bodies, skip, cur, c);
    var stmts := BodyStmts(bodies[c]);
    match bodies[c] {
      case Block(_) =>
        choices, k, o := BlockPathIsRun(g, mid + [EMPTY_BLOCK], loops, stmts, |mid|, ps);
      case Expr =>
        choices, k, o := [], 0, Normal;
        assert |ps[..1]| == 1;
    }
    if o == Normal {
      k, o := FallThrough(g, ps, Arm(mid, loops, bodies[c]), loops, RunBlock(stmts, choices), k, r.tail.value);
    }
  }

  /** Continues past the end of an inner part along its `goto`. */
  lemma FallThrough(g: Graph, ps: seq<Pos>, inner: Built, loops: LoopStack, run: Run, k: nat, target: BlockId)
    returns (k': nat, o: Outcome)
    requires IsPath(g, ps) && Explains(g, ps, inner, loops, run, k, Normal)
    requires inner.tail.value < |g| && inner.tail.value < |inner.graph|
    requires g[inner.tail.value] == BasicBlock(inner.graph[inner.tail.value].stmts, Goto(target))
    ensures o == if |ps| == k + 1 then Cut else Normal
    ensures o == Cut ==> k' == k && Labels(g, ps) == run.trace && !AtExit(g, Last(ps))
    ensures o == Normal ==> k' == k + 1 < |ps| && ps[k'] == Pos(target, 0) && Labels(g, ps[..k' + 1]) == run.trace
  {
    if |ps| == k + 1 {
      assert ps[..k + 1] == ps;
      k', o := k, Cut;
    } else {
      assert Edge(g, ps[k], ps[k + 1]);
      k', o := k + 1, Normal;
      LabelsSplit(g, ps[..k + 2], k);
      assert ps[..k + 2][..k + 1] == ps[..k + 1] && ps[..k + 2][k..] == [ps[k], ps[k + 1]];
      assert [ps[k], ps[k + 1]][1..] == [ps[k + 1]];
    }
  }

  /** A path from the end of the block before a loop: one step to the header first. */
  lemma {:induction false} EnteredCondLoop(g: Graph, before: Graph, loops: LoopStack, body: seq<Stmt>, cur: BlockId,
                        ps: seq<Pos>) returns (choices: seq<nat>, k: nat, o: Outcome)
    requires cur < |before| && IsPath(g, ps) && ps[0] == Start(before, cur)
    requires Contains(g, before, cur, BuildCondLoop(before, loops, body, cur))
    ensures Explains(g, ps, BuildCondLoop(before, loops, body, cur), loops, RunCondLoop(body, choices), k, o)
    ensures o == Cut || o == Normal
    decreases |ps|, body, 4
  {
    ContainsCondLoop(g, before, loops, body, cur);
    choices, k, o := [], 0, Cut;
    if |ps| > 1 {
      assert Edge(g, ps[0], ps[0 + 1]);
      PathSuffix(g, ps, 1);
      choices, k, o := CondLoopPathIsRun(g, before, loops, body, cur, ps[1..]);
      ExplainAfter(g, ps, BuildCondLoop(before, loops, body, cur), loops, RunCondLoop(body, choices), k, o);
      k := k + 1;
    }
  }

  lemma {:induction false} CondLoopPathIsRun(g: Graph, before: Graph, loops: LoopStack, body: seq<Stmt>, cur: BlockId,
                          ps: seq<Pos>) returns (choices: seq<nat>, k: nat, o: Outcome)
    requires cur < |before| && IsPath(g, ps) && ps[0] == Pos(|before|, 0)
    requires Contains(g, before, cur, BuildCondLoop(before, loops, body, cur))
    ensures Explains(g, ps, BuildCondLoop(before, loops, body, cur), loops, RunCondLoop(body, choices), k, o)
    ensures o == Cut || o == Normal
    decreases |ps|, body, 3
  {
    ContainsCondLoop(g, before, loops, body, cur);
    var r := BuildCondLoop(before, loops, body, cur);
    choices, k, o := [], 0, Cut;
    if |ps| > 1 {
      assert Edge(g, ps[0], ps[0 + 1]);
      PathSuffix(g, ps, 1);
      if ps[1].block == |before| + 2 {
        choices, k, o := [1], 1, Normal;
        LabelsOfStep(g, ps);
      } else {
        choices, k, o := CondLoopBodyPath(g, before, loops, body, cur, ps[1..]);
        ExplainAfter(g, ps, r, loops, RunCondLoop(body, [0] + choices), k, o);
        choices, k := [0] + choices, k + 1;
      }
    }
  }

  /** A path that has entered the body of a conditional loop. */
  lemma {:induction false} CondLoopBodyPath(g: Graph, before: Graph, loops: LoopStack, body: seq<Stmt>, cur: BlockId,
                         ps: seq<Pos>) returns (choices: seq<nat>, k: nat, o: Outcome)
    requires cur < |before| && IsPath(g, ps) && ps[0] == Pos(|before| + 1, 0)
    requires Contains(g, before, cur, BuildCondLoop(before, loops, body, cur))
    ensures Explains(g, ps, BuildCondLoop(before, loops, body, cur), loops, RunCondLoop(body, [0] + choices), k, o)
    ensures o == Cut || o == Normal
    decreases |ps|, body, 2
  {
    hide BuildBlock, RunBlock, Labels, IsPath;
    ContainsCondLoop(g, before, loops, body, cur);
    var r := BuildCondLoop(before, loops, body, cur);
    choices, k, o := CondLoopOncePath(g, before, loops, body, cur, ps);
    assert ([0] + choices)[1..] == choices;
    if o == Normal || o == Continued {
      var once := RunBlock(body, choices);
      PathSuffix(g, ps, k);
      var choices', k', o' := CondLoopPathIsRun(g, before, loops, body, cur, ps[k..]);
      MoreChoicesBlock(body, choices, choices');
      assert ([0] + (choices + choices'))[1..] == choices + choices';
      assert RunBlock(body, choices + choices').rest == choices';
      assert RunCondLoop(body, [0] + (choices + choices')) == After(once.trace, RunCondLoop(body, choices'));
      ExplainThen(g, ps, r, loops, once, k, RunCondLoop(body, choices'), k', o');
      choices, k, o := choices + choices', k + k', o';
    } else if o == Broke {
      o := Normal;
    }
  }

  /** Once through the body: the path stops inside, returns to the header, or leaves the loop. */
  lemma {:induction false} CondLoopOncePath(g: Graph, before: Graph, loops: LoopStack, body: seq<Stmt>, cur: BlockId,
                         ps: seq<Pos>) returns (choices: seq<nat>, k: nat, o: Outcome)
    requires cur < |before| && IsPath(g, ps) && ps[0] == Pos(|before| + 1, 0)
    requires Contains(g, before, cur, BuildCondLoop(before, loops, body, cur))
    ensures k < |ps| && o != Returned
    ensures var once := RunBlock(body, choices);
            && (o == Cut ==> Stops(g, ps, once))
            && (o != Cut ==> once == Run(Labels(g, ps[..k + 1]), o, []))
            && (o == Normal || o == Continued ==> k > 0 && ps[k] == Pos(|before|, 0))
            && (o == Broke ==> ps[k] == Pos(|before| + 2, 0))
    decreases |ps|, body, 1
  {
    hide BuildBlock, RunBlock, Labels, IsPath, Contains, BuildCondLoop, AtExit;
    ContainsCondLoop(g, before, loops, body, cur);
    var inner := loops + [(|before|, |before| + 2)];
    var open := OpenCondLoop(before, cur);
    var b := BuildBlock(open, inner, body, |before| + 1);
    choices, k, o := BlockPathIsRun(g, open, inner, body, |before| + 1, ps);
    if o == Normal {
      k, o := FallThrough(g, ps, b, inner, RunBlock(body, choices), k, |before|);
    }
  }

  lemma {:induction false} EnteredLoop(g: Graph, before: Graph, loops: LoopStack, body: seq<Stmt>, cur: BlockId,
                    ps: seq<Pos>) returns (choices: seq<nat>, k: nat, o: Outcome)
    requires cur < |before| && IsPath(g, ps) && ps[0] == Start(before, cur)
    requires Contains(g, before, cur, BuildLoop(before, loops, body, cur))
    ensures Explains(g, ps, BuildLoop(before, loops, body, cur), loops, RunLoop(body, choices), k, o)
    ensures o == Cut || o == Normal
    decreases |ps|, body, 2
  {
    ContainsLoop(g, before, loops, body, cur);
    choices, k, o := [], 0, Cut;
    if |ps| > 1 {
      assert Edge(g, ps[0], ps[0 + 1]);
      PathSuffix(g, ps, 1);
      choices, k, o := LoopPathIsRun(g, before, loops, body, cur, ps[1..]);
      ExplainAfter(g, ps, BuildLoop(before, loops, body, cur), loops, RunLoop(body, choices), k, o);
      k := k + 1;
    }
  }

  lemma {:induction false} LoopPathIsRun(g: Graph, before: Graph, loops: LoopStack, body: seq<Stmt>, cur: BlockId,
                      ps: seq<Pos>) returns (choices: seq<nat>, k: nat, o: Outcome)
    requires cur < |before| && IsPath(g, ps) && ps[0] == Pos(|before|, 0)
    requires Contains(g, before, cur, BuildLoop(before, loops, body, cur))
    ensures Explains(g, ps, BuildLoop(before, loops, body, cur), loops, RunLoop(body, choices), k, o)
    ensures o == Cut || o == Normal
    decreases |ps|, body, 1
  {
    hide BuildBlock, RunBlock, Labels, IsPath;
    ContainsLoop(g, before, loops, body, cur);
    var inner := loops + [(|before|, |before| + 1)];
    choices, k, o := BlockPathIsRun(g, OpenLoop(before, cur), inner, body, |before|, ps);
    var once := RunBlock(body, choices);
    if o == Normal {
      var b := BuildBlock(OpenLoop(before, cur), inner, body, |before|);
      k, o := FallThrough(g, ps, b, inner, once, k, |before|);
    }
    if o == Normal || o == Continued {
      PathSuffix(g, ps, k);
      var choices', k', o' := LoopPathIsRun(g, before, loops, body, cur, ps[k..]);
      MoreChoicesBlock(body, choices, [0] + choices');
      assert ([0] + choices')[1..] == choices';
      assert RunBlock(body, choices + ([0] + choices')).rest == [0] + choices';
      assert RunLoop(body, choices + ([0] + choices')) == After(once.trace, RunLoop(body, choices'));
      ExplainThen(g, ps, BuildLoop(before, loops, body, cur), loops, once, k, RunLoop(body, choices'), k', o');
      choices, k, o := choices + ([0] + choices'), k + k', o';
    } else if o == Broke {
      o := Normal;
    }
  }

  // ---------------------------------------------------------------- the theorem

  /** Some path from the entry logs exactly `t`. */
  ghost predicate PathLogs(g: Graph, t: seq<Stmt>) {
    exists ps :: IsPath(g, ps) && ps[0] == Pos(0, 0) && Labels(g, ps) == t
  }

  /** A path can stop after any number of logged statements. */
  lemma {:induction false} StopAfter(g: Graph, ps: seq<Pos>, t: seq<Stmt>) returns (n: nat)
    requires |ps| > 0 && t <= Labels(g, ps)
    ensures 0 < n <= |ps| && Labels(g, ps[..n]) == t
    decreases |ps|
  {
    if t == [] {
      n := 1;
    } else {
      var first := Label(g, ps[0]);
      assert first <= t;
      n := StopAfter(g, ps[1..], t[|first|..]);
      assert ps[..n + 1][1..] == ps[1..][..n];
      n := n + 1;
    }
  }

  /** Some path from the entry to an exit logs exactly `t`. */
  ghost predicate ExitLogs(g: Graph, t: seq<Stmt>) {
    exists ps :: IsPath(g, ps) && ps[0] == Pos(0, 0) && AtExit(g, Last(ps)) && Labels(g, ps) == t
  }

  /** `t` is the whole log of an execution that returns or reaches the end of the body. */
  ghost predicate IsLog(body: seq<Stmt>, t: seq<Stmt>) {
    exists choices :: RunBlock(body, choices).trace == t && RunBlock(body, choices).outcome in {Normal, Returned}
  }

  lemma BuiltContains(body: seq<Stmt>)
    ensures Contains(BuildFunction(body), [EMPTY_BLOCK], 0, BuildBlock([EMPTY_BLOCK], [], body, 0))
    ensures var r := BuildBlock([EMPTY_BLOCK], [], body, 0);
            r.tail.Some? ==> BuildFunction(body)[r.tail.value] == BasicBlock(r.graph[r.tail.value].stmts, Exit)
  {
  }

  /** The logs of the paths through the built graph are the logs of the executions of the body. */
  lemma GraphEqualsStructure(body: seq<Stmt>, t: seq<Stmt>)
    ensures IsTrace(body, t) <==> PathLogs(BuildFunction(body), t)
  {
    hide Edge, Contains, Label, Frames;
    var g := BuildFunction(body);
    var r := BuildBlock([EMPTY_BLOCK], [], body, 0);
    BuiltContains(body);
    if IsTrace(body, t) {
      var choices :| t <= RunBlock(body, choices).trace;
      var ps := BlockRunIsPath(g, [EMPTY_BLOCK], [], body, 0, choices);
      var n := StopAfter(g, ps, t);
      assert IsPath(g, ps[..n]) by {
        forall i | 0 <= i < |ps[..n]| - 1
          ensures Edge(g, ps[..n][i], ps[..n][i + 1])
        {
          assert Edge(g, ps[i], ps[i + 1]);
        }
      }
    }
    if PathLogs(g, t) {
      var ps :| IsPath(g, ps) && ps[0] == Pos(0, 0) && Labels(g, ps) == t;
      var choices, k, o := BlockPathIsRun(g, [EMPTY_BLOCK], [], body, 0, ps);
      if o == Normal {
        StuckAfter(g, ps, k);
        assert ps[..k + 1] == ps;
      }
      assert t <= RunBlock(body, choices).trace;
    }
  }

  /** The complete executions are the paths that end at an exit: none is lost, and none is only a part of one. */
  lemma ExitsEqualStructure(body: seq<Stmt>, t: seq<Stmt>)
    ensures IsLog(body, t) <==> ExitLogs(BuildFunction(body), t)
  {
    hide Edge, Contains, Label, Frames, BuildFunction, BuildBlock, RunBlock;
    var g := BuildFunction(body);
    var r := BuildBlock([EMPTY_BLOCK], [], body, 0);
    BuiltContains(body);
    if IsLog(body, t) {
      var choices :| RunBlock(body, choices).trace == t && RunBlock(body, choices).outcome in {Normal, Returned};
      var ps := BlockRunIsPath(g, [EMPTY_BLOCK], [], body, 0, choices);
      assert AtExit(g, Last(ps));
    }
    if ExitLogs(g, t) {
      var ps :| IsPath(g, ps) && ps[0] == Pos(0, 0) && AtExit(g, Last(ps)) && Labels(g, ps) == t;
      var choices, k, o := BlockPathIsRun(g, [EMPTY_BLOCK], [], body, 0, ps);
      if o == Normal {
        StuckAfter(g, ps, k);
        assert ps[..k + 1] == ps;
      }
      assert RunBlock(body, choices).trace == t && RunBlock(body, choices).outcome in {Normal, Returned};
    }
  }
}
