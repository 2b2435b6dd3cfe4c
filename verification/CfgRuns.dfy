/** What a LOW-tier body can do, read off its structure: the executions under free branch choices. */
module CfgRuns {
  import opened Cfg

  datatype Outcome = Normal | Broke | Continued | Returned | Cut

  /** The statements logged, how the execution ended, and the choices it did not use. */
  datatype Run = Run(trace: seq<Stmt>, outcome: Outcome, rest: seq<nat>)

  function After(s: seq<Stmt>, r: Run): Run {
    r.(trace := s + r.trace)
  }

  /** Executes `stmts`, taking each branch decision from `choices`; an execution whose choices run out
      or name no branch is cut short there. */
  function RunBlock(stmts: seq<Stmt>, choices: seq<nat>): (r: Run)
    ensures |r.rest| <= |choices|
    decreases |choices|, stmts, 0
  {
    if stmts == [] then Run([], Normal, choices)
    else
      var first := RunStmt(stmts[0], choices);
      if first.outcome != Normal then first
      else After(first.trace, RunBlock(stmts[1..], first.rest))
  }

  function RunStmt(s: Stmt, choices: seq<nat>): (r: Run)
    ensures |r.rest| <= |choices|
    decreases |choices|, s, 0
  {
    match s
    case Plain(_) => Run([s], Normal, choices)
    case Return(_) => Run([s], Returned, choices)
    case Break(_) => Run([s], Broke, choices)
    case Continue(_) => Run([s], Continued, choices)
    case If(_, branches, hasElse) => After([s], RunArms(branches, !hasElse, choices))
    case Match(_, arms) => After([s], RunArms(arms, false, choices))
    case CondLoop(_, body) => After([s], RunCondLoop(body, choices))
    case Loop(_, body) => After([s], RunLoop(body, choices))
    case Scope(_, body) => After([s], RunBlock(body, choices))
  }

  /** Exactly one branch runs; with `skip` there is one more choice, which runs none. */
  function RunArms(bodies: seq<Body>, skip: bool, choices: seq<nat>): (r: Run)
    ensures |r.rest| <= |choices|
    decreases |choices|, bodies, 0
  {
    if choices == [] then Run([], Cut, [])
    else if choices[0] < |bodies| then RunBody(bodies[choices[0]], choices[1..])
    else if skip && choices[0] == |bodies| then Run([], Normal, choices[1..])
    else Run([], Cut, [])
  }

  function RunBody(b: Body, choices: seq<nat>): (r: Run)
    ensures |r.rest| <= |choices|
    decreases |choices|, b, 0
  {
    match b
    case Block(stmts) => RunBlock(stmts, choices)
    case Expr => Run([], Normal, choices)
  }

  /** A `while` or `for` loop, at its header: choice 0 enters the body, choice 1 leaves the loop. */
  function RunCondLoop(body: seq<Stmt>, choices: seq<nat>): (r: Run)
    ensures |r.rest| <= |choices|
    decreases |choices|, body, 1
  {
    if choices == [] || choices[0] > 1 then Run([], Cut, [])
    else if choices[0] == 1 then Run([], Normal, choices[1..])
    else
      var once := RunBlock(body, choices[1..]);
      match once.outcome
      case Normal => After(once.trace, RunCondLoop(body, once.rest))
      case Continued => After(once.trace, RunCondLoop(body, once.rest))
      case Broke => once.(outcome := Normal)
      case Returned => once
      case Cut => once
  }

  /** A `loop`: only `break` leaves it. Going round again uses up one choice, whatever it is. */
  function RunLoop(body: seq<Stmt>, choices: seq<nat>): (r: Run)
    ensures |r.rest| <= |choices|
    decreases |choices|, body, 1
  {
    var once := RunBlock(body, choices);
    match once.outcome
    case Broke => once.(outcome := Normal)
    case Returned => once
    case Cut => once
    case _ =>
      if once.rest == [] then once.(outcome := Cut)
      else After(once.trace, RunLoop(body, once.rest[1..]))
  }

  /** `t` is the log of an execution of `body`, observed up to some point. */
  ghost predicate IsTrace(body: seq<Stmt>, t: seq<Stmt>) {
    exists choices :: t <= RunBlock(body, choices).trace
  }

  // ---------------------------------------------------------------- more choices than needed

  ghost predicate Lengthens(r: Run, longer: Run, more: seq<nat>) {
    r.outcome != Cut ==> longer == r.(rest := r.rest + more)
  }

  /** Choices an execution does not use do not change it. */
  lemma {:induction false} MoreChoicesBlock(stmts: seq<Stmt>, choices: seq<nat>, more: seq<nat>)
    ensures Lengthens(RunBlock(stmts, choices), RunBlock(stmts, choices + more), more)
    decreases |choices|, stmts, 0
  {
    if stmts != [] {
      MoreChoicesStmt(stmts[0], choices, more);
      var first := RunStmt(stmts[0], choices);
      if first.outcome == Normal {
        MoreChoicesBlock(stmts[1..], first.rest, more);
      }
    }
  }

  lemma {:induction false} MoreChoicesStmt(s: Stmt, choices: seq<nat>, more: seq<nat>)
    ensures Lengthens(RunStmt(s, choices), RunStmt(s, choices + more), more)
    decreases |choices|, s, 0
  {
    match s
    case If(_, branches, hasElse) => MoreChoicesArms(branches, !hasElse, choices, more);
    case Match(_, arms) => MoreChoicesArms(arms, false, choices, more);
    case CondLoop(_, body) => MoreChoicesCondLoop(body, choices, more);
    case Loop(_, body) => MoreChoicesLoop(body, choices, more);
    case Scope(_, body) => MoreChoicesBlock(body, choices, more);
    case _ =>
  }

  lemma {:induction false} MoreChoicesArms(bodies: seq<Body>, skip: bool, choices: seq<nat>, more: seq<nat>)
    ensures Lengthens(RunArms(bodies, skip, choices), RunArms(bodies, skip, choices + more), more)
    decreases |choices|, bodies, 0
  {
    if choices != [] {
      assert (choices + more)[1..] == choices[1..] + more;
      if choices[0] < |bodies| {
        match bodies[choices[0]]
        case Block(stmts) => MoreChoicesBlock(stmts, choices[1..], more);
        case Expr =>
      }
    }
  }

  lemma {:induction false} MoreChoicesCondLoop(body: seq<Stmt>, choices: seq<nat>, more: seq<nat>)
    ensures Lengthens(RunCondLoop(body, choices), RunCondLoop(body, choices + more), more)
    decreases |choices|, body, 1
  {
    if choices != [] {
      assert (choices + more)[1..] == choices[1..] + more;
      if choices[0] == 0 {
        MoreChoicesBlock(body, choices[1..], more);
        var once := RunBlock(body, choices[1..]);
        if once.outcome == Normal || once.outcome == Continued {
          MoreChoicesCondLoop(body, once.rest, more);
        }
      }
    }
  }

  lemma {:induction false} MoreChoicesLoop(body: seq<Stmt>, choices: seq<nat>, more: seq<nat>)
    ensures Lengthens(RunLoop(body, choices), RunLoop(body, choices + more), more)
    decreases |choices|, body, 1
  {
    MoreChoicesBlock(body, choices, more);
    var once := RunBlock(body, choices);
    if (once.outcome == Normal || once.outcome == Continued) && once.rest != [] {
      assert (once.rest + more)[1..] == once.rest[1..] + more;
      MoreChoicesLoop(body, once.rest[1..], more);
    }
  }
}
