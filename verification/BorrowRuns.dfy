/** The borrow checker's walks over points are executions of the body, so its verdicts are about runs. */
module BorrowRuns {
  import opened Wrappers
  import opened Cfg
  import opened CfgRuns
  import opened CfgPaths
  import opened CfgCorrect
  import opened PointGraph
  import opened BorrowCheck

  // ---------------------------------------------------------------- built graphs are closed

  lemma {:induction false} BlockTargets(g: Graph, loops: LoopStack, stmts: seq<Stmt>, cur: BlockId)
    requires cur < |g| && Closed(g) && LoopsWithin(loops, g)
    ensures Closed(BuildBlock(g, loops, stmts, cur).graph)
    decreases stmts, 0
  {
    if stmts != [] {
      StmtTargets(g, loops, stmts[0], cur);
      var first := BuildStmt(g, loops, stmts[0], cur);
      if first.tail.Some? {
        BlockTargets(first.graph, loops, stmts[1..], first.tail.value);
      }
    }
  }

  lemma {:induction false} StmtTargets(g: Graph, loops: LoopStack, s: Stmt, cur: BlockId)
    requires cur < |g| && Closed(g) && LoopsWithin(loops, g)
    ensures Closed(BuildStmt(g, loops, s, cur).graph)
    decreases s, 0
  {
    var logged := WithStmt(g, cur, s);
    LogTargets(g, cur, s);
    match s
    case Plain(_) =>
    case Return(_) => TermTargets(logged, cur, Exit);
    case Break(_) => JumpTargets(logged, loops, cur);
    case Continue(_) => JumpTargets(logged, loops, cur);
    case If(_, branches, hasElse) => ArmsTargets(logged, loops, branches, !hasElse, cur);
    case Match(_, arms) => ArmsTargets(logged, loops, arms, false, cur);
    case CondLoop(_, body) => CondLoopTargets(logged, loops, body, cur);
    case Loop(_, body) => LoopTargets(logged, loops, body, cur);
    case Scope(_, body) => BlockTargets(logged, loops, body, cur);
  }

  lemma {:induction false} CondLoopTargets(g: Graph, loops: LoopStack, body: seq<Stmt>, cur: BlockId)
    requires cur < |g| && Closed(g) && LoopsWithin(loops, g)
    ensures Closed(BuildCondLoop(g, loops, body, cur).graph)
    decreases body, 1
  {
    var open, inner := OpenCondLoop(g, cur), loops + [(|g|, |g| + 2)];
    BlockTargets(open, inner, body, |g| + 1);
    CloseTargets(BuildBlock(open, inner, body, |g| + 1), |g|);
  }

  lemma {:induction false} LoopTargets(g: Graph, loops: LoopStack, body: seq<Stmt>, cur: BlockId)
    requires cur < |g| && Closed(g) && LoopsWithin(loops, g)
    ensures Closed(BuildLoop(g, loops, body, cur).graph)
    decreases body, 1
  {
    var open, inner := OpenLoop(g, cur), loops + [(|g|, |g| + 1)];
    BlockTargets(open, inner, body, |g|);
    CloseTargets(BuildBlock(open, inner, body, |g|), |g|);
  }

  lemma LogTargets(g: Graph, cur: BlockId, s: Stmt)
    requires cur < |g| && Closed(g)
    ensures Closed(WithStmt(g, cur, s))
  {
    assert forall b :: 0 <= b < |g| ==> Successors(WithStmt(g, cur, s)[b]) == Successors(g[b]);
  }

  lemma TermTargets(g: Graph, cur: BlockId, t: Terminator)
    requires cur < |g| && Closed(g)
    requires forall b :: b in Successors(BasicBlock([], t)) ==> b < |g|
    ensures Closed(WithTerm(g, cur, t))
  {
    assert Successors(WithTerm(g, cur, t)[cur]) == Successors(BasicBlock([], t));
  }

  lemma JumpTargets(g: Graph, loops: LoopStack, cur: BlockId)
    requires cur < |g| && Closed(g) && LoopsWithin(loops, g)
    ensures Closed(WithTerm(g, cur, BreakTarget(loops))) && Closed(WithTerm(g, cur, ContinueTarget(loops)))
  {
    assert loops != [] ==> loops[|loops| - 1] in loops;
    TermTargets(g, cur, BreakTarget(loops));
    TermTargets(g, cur, ContinueTarget(loops));
  }

  lemma CloseTargets(inner: Built, header: BlockId)
    requires Closed(inner.graph) && header < |inner.graph|
    requires inner.tail.Some? ==> inner.tail.value < |inner.graph|
    ensures Closed(CloseLoop(inner, header))
  {
    if inner.tail.Some? {
      TermTargets(inner.graph, inner.tail.value, Goto(header));
    }
  }

  lemma {:induction false} ArmsTargets(g: Graph, loops: LoopStack, bodies: seq<Body>, skip: bool, cur: BlockId)
    requires cur < |g| && Closed(g) && LoopsWithin(loops, g)
    ensures Closed(BuildArms(g, loops, bodies, skip, cur).graph)
    decreases bodies, 1
  {
    BranchesTargets(g, loops, bodies);
    var all := BuildBranches(g, loops, bodies);
    JoinTargets(if skip then WithSkip(all) else all, cur);
  }

  lemma JoinTargets(bs: Branches, cur: BlockId)
    requires cur < |bs.graph| && Closed(bs.graph)
    requires forall t :: t in bs.tails ==> t < |bs.graph|
    requires forall e :: e in bs.entries ==> e < |bs.graph|
    ensures Closed(Join(bs, cur).graph)
  {
    var r := Join(bs, cur);
    forall b, t | 0 <= b < |r.graph| && t in Successors(r.graph[b])
      ensures t < |r.graph|
    {
      if b < |bs.graph| && b != cur && b !in bs.tails {
        assert r.graph[b] == bs.graph[b];
      }
    }
  }

  lemma {:induction false} BranchesTargets(g: Graph, loops: LoopStack, bodies: seq<Body>)
    requires Closed(g) && LoopsWithin(loops, g)
    ensures var r := BuildBranches(g, loops, bodies);
            Closed(r.graph) && forall e :: e in r.entries ==> e < |r.graph|
    decreases bodies, 0
  {
    if bodies != [] {
      BranchTargets(g, loops, bodies[0]);
      BranchesTargets(BuildBranch(g, loops, bodies[0]).graph, loops, bodies[1..]);
    }
  }

  lemma {:induction false} BranchTargets(g: Graph, loops: LoopStack, body: Body)
    requires Closed(g) && LoopsWithin(loops, g)
    ensures Closed(BuildBranch(g, loops, body).graph)
    decreases body, 0
  {
    match body
    case Block(stmts) => BlockTargets(g + [EMPTY_BLOCK], loops, stmts, |g|);
    case Expr =>
  }

  /** Every graph the builder makes can be handed to the checker. */
  lemma BuiltIsClosed(body: seq<Stmt>)
    ensures Closed(BuildFunction(body)) && |BuildFunction(body)| > 0
  {
    BlockTargets([EMPTY_BLOCK], [], body, 0);
  }

  // ---------------------------------------------------------------- walks and paths

  function Stmts(g: Graph, w: seq<Point>): seq<Stmt>
    requires forall p :: p in w ==> IsPoint(g, p)
  {
    if w == [] then [] else [StmtAt(g, w[0])] + Stmts(g, w[1..])
  }

  /** A walk of points, entered silently from `p`, as a path that has run every statement of the walk. */
  lemma {:induction false} WalkToPath(g: Graph, p: Pos, w: seq<Point>) returns (ps: seq<Pos>)
    requires IsWalk(g, w) && FirstFrom(g, p, w[0])
    ensures forall q :: q in w ==> IsPoint(g, q)
    ensures IsPath(g, ps) && ps[0] == p && Labels(g, ps) == Stmts(g, w)
    decreases |w|
  {
    WalkPoints(g, w);
    var start :| IsPath(g, start) && start[0] == p && Last(start) == PosOf(w[0]) && Labels(g, start) == [];
    var after := Pos(w[0].block, w[0].index + 1);
    var rest := [after];
    if |w| > 1 {
      assert Next(g, w[0], w[0 + 1]);
      WalkSuffix(g, w, 1);
      rest := WalkToPath(g, after, w[1..]);
    }
    rest := PrependStep(g, PosOf(w[0]), rest);
    ps := JoinPaths(g, start, rest);
  }

  /** A path that has run at least one statement, as a walk of points. */
  lemma {:induction false} PathToWalk(g: Graph, ps: seq<Pos>) returns (w: seq<Point>)
    requires IsPath(g, ps) && Labels(g, ps) != []
    ensures IsWalk(g, w) && FirstFrom(g, ps[0], w[0])
    ensures forall q :: q in w ==> IsPoint(g, q)
    ensures Stmts(g, w) == Labels(g, ps)
    decreases |ps|
  {
    assert Edge(g, ps[0], ps[0 + 1]);
    PathSuffix(g, ps, 1);
    var p := ps[0];
    if Label(g, p) == [] {
      w := PathToWalk(g, ps[1..]);
      SilentlyStep(g, p, ps[1], PosOf(w[0]));
    } else {
      var point := Point(p.block, p.index);
      SilentlyHere(g, p);
      if Labels(g, ps[1..]) == [] {
        w := [point];
      } else {
        w := PathToWalk(g, ps[1..]);
        WalkPrepend(g, point, w);
        assert ([point] + w)[1..] == w;
        w := [point] + w;
      }
    }
  }

  /** The statement sequences of the walks from the entry are the non-empty logs of the executions. */
  lemma WalksAreExecutions(body: seq<Stmt>, t: seq<Stmt>)
    ensures var g := BuildFunction(body);
            t != [] && IsTrace(body, t) <==>
            exists w :: IsWalk(g, w) && FirstFrom(g, Pos(0, 0), w[0]) &&
                        (forall p :: p in w ==> IsPoint(g, p)) && Stmts(g, w) == t
  {
    var g := BuildFunction(body);
    GraphEqualsStructure(body, t);
    if t != [] && IsTrace(body, t) {
      var ps :| IsPath(g, ps) && ps[0] == Pos(0, 0) && Labels(g, ps) == t;
      var w := PathToWalk(g, ps);
    }
    if w :| IsWalk(g, w) && FirstFrom(g, Pos(0, 0), w[0]) &&
            (forall p :: p in w ==> IsPoint(g, p)) && Stmts(g, w) == t {
      var ps := WalkToPath(g, Pos(0, 0), w);
    }
  }

  /** A walk continued by another one that begins where it ends. */
  lemma WalkJoin(g: Graph, a: seq<Point>, b: seq<Point>)
    requires IsWalk(g, a) && IsWalk(g, b) && WalkEnd(a) == b[0]
    ensures IsWalk(g, a + b[1..]) && WalkEnd(a + b[1..]) == WalkEnd(b)
  {
    var w := a + b[1..];
    forall i | 0 <= i < |w| - 1
      ensures Next(g, w[i], w[i + 1])
    {
      if i < |a| - 1 {
        assert Next(g, a[i], a[i + 1]);
      } else {
        assert Next(g, b[i - |a| + 1], b[i - |a| + 1 + 1]);
      }
    }
  }

  /** The statement at `p` kills the loan: a listed kill, or a new definition of the carrier other than the issue itself. */
  predicate KilledBy(f: Facts, l: Loan, p: Point) {
    || (l.id in f.killedAt && p in f.killedAt[l.id])
    || (l.boundPlace in f.definedAt && p in f.definedAt[l.boundPlace] && p != l.issuedAt)
  }

  lemma KillsAre(f: Facts, l: Loan, p: Point)
    ensures p in Kills(f, l) <==> KilledBy(f, l, p)
  {
  }

  /** Between its issue at index `i` and index `j`, the loan is not killed. */
  ghost predicate InForce(f: Facts, l: Loan, w: seq<Point>, i: nat, j: nat) {
    i < j < |w| && w[i] == l.issuedAt && forall k :: i < k < j ==> !KilledBy(f, l, w[k])
  }

  /** After index `j`, the carrier is read at the end of `w` and not defined before. */
  ghost predicate ReadAfter(g: Graph, f: Facts, l: Loan, w: seq<Point>, j: nat) {
    j + 1 < |w| && Uses(g, f, l.boundPlace, w[|w| - 1]) &&
    forall k :: j < k < |w| - 1 ==> !Defines(g, f, l.boundPlace, w[k])
  }

  /** An execution of the body that issues loan `l`, comes to `q` with the loan in force, and then reads
      the carrier: the points of its log, and where the loan is issued and `q` is met. */
  ghost predicate Witness(body: seq<Stmt>, f: Facts, l: Loan, q: Point, w: seq<Point>, i: nat, j: nat) {
    var g := BuildFunction(body);
    && IsWalk(g, w) && FirstFrom(g, Pos(0, 0), w[0]) && (forall p :: p in w ==> IsPoint(g, p)) && IsTrace(body, Stmts(g, w))
    && InForce(f, l, w, i, j) && w[j] == q && ReadAfter(g, f, l, w, j)
  }

  ghost predicate EntryWalk(body: seq<Stmt>, l: Loan, entry: seq<Point>) {
    var g := BuildFunction(body);
    IsWalk(g, entry) && FirstFrom(g, Pos(0, 0), entry[0]) && WalkEnd(entry) == l.issuedAt
  }

  /** Some execution of the body comes to where the loan is issued. */
  ghost predicate Issuable(body: seq<Stmt>, l: Loan) {
    exists entry :: EntryWalk(body, l, entry)
  }

  /** A loan that can be issued has a violation at `q` if and only if it is mutable and bound, and an execution of the body
      exhibits the violation. */
  lemma ViolationIsExecution(body: seq<Stmt>, f: Facts, l: Loan, q: Point)
    ensures IsViolation(BuildFunction(body), f, l, q) && Issuable(body, l) <==>
            l.mutable && l.boundPlace != Unknown && exists w, i, j :: Witness(body, f, l, q, w, i, j)
  {
    hide Witness, EntryWalk;
    if IsViolation(BuildFunction(body), f, l, q) && Issuable(body, l) {
      var entry :| EntryWalk(body, l, entry);
      ViolationHasExecution(body, f, l, q, entry);
    }
    if l.mutable && l.boundPlace != Unknown {
      if w, i, j :| Witness(body, f, l, q, w, i, j) {
        ExecutionIsViolation(body, f, l, q, w, i, j);
        assert EntryWalk(body, l, w[..i + 1]);
      }
    }
  }

  /** An execution of the body exhibits the violation of a mutable, bound loan at `q`. */
  ghost predicate Exhibited(body: seq<Stmt>, f: Facts, l: Loan, q: Point) {
    l.mutable && l.boundPlace != Unknown && exists w, i, j :: Witness(body, f, l, q, w, i, j)
  }

  /** `spots` are exactly the loans and invalidation points of which an execution exhibits the violation, in order, and
      each of them has its entry in `violations`. */
  ghost predicate ListsExecutions(body: seq<Stmt>, f: Facts, violations: seq<Violation>, spots: seq<Spot>) {
    && |spots| == |violations|
    && (forall n :: 0 <= n < |spots| ==>
          && IsSpot(f, f.loans, spots[n]) && Exhibited(body, f, f.loans[spots[n].loan], PointOf(f, f.loans, spots[n]))
          && Tells(BuildFunction(body), f, f.loans, spots[n], violations[n]))
    && (forall m, n :: 0 <= m < n < |spots| ==> SpotBefore(spots[m], spots[n]))
    && forall s :: IsSpot(f, f.loans, s) && Exhibited(body, f, f.loans[s.loan], PointOf(f, f.loans, s)) ==> s in spots
  }

  /** The report that `Check` makes for a body whose loans can be issued: one entry for each loan and each of its
      invalidation points that some execution of the body exhibits, and no other. */
  lemma ReportIsExecutions(body: seq<Stmt>, f: Facts, violations: seq<Violation>)
    requires ReportsExactly(BuildFunction(body), f, violations) && forall l :: l in f.loans ==> Issuable(body, l)
    ensures exists spots :: ListsExecutions(body, f, violations, spots)
  {
    hide Exhibited, IsViolation, Issuable, Tells, BuildFunction;
    var g := BuildFunction(body);
    var spots :| Lists(g, f, f.loans, violations, spots);
    forall s | IsSpot(f, f.loans, s)
      ensures Violated(g, f, f.loans, s) <==> Exhibited(body, f, f.loans[s.loan], PointOf(f, f.loans, s))
    {
      assert f.loans[s.loan] in f.loans;
      ViolatedIsExhibited(body, f, f.loans[s.loan], PointOf(f, f.loans, s));
    }
    assert ListsExecutions(body, f, violations, spots);
  }

  lemma ViolatedIsExhibited(body: seq<Stmt>, f: Facts, l: Loan, q: Point)
    requires Issuable(body, l)
    ensures IsViolation(BuildFunction(body), f, l, q) <==> Exhibited(body, f, l, q)
  {
    hide IsViolation, Issuable, Witness, BuildFunction;
    ViolationIsExecution(body, f, l, q);
  }

  lemma ExecutionIsViolation(body: seq<Stmt>, f: Facts, l: Loan, q: Point, w: seq<Point>, i: nat, j: nat)
    requires l.mutable && l.boundPlace != Unknown && Witness(body, f, l, q, w, i, j)
    ensures IsViolation(BuildFunction(body), f, l, q) && i < |w| && EntryWalk(body, l, w[..i + 1])
  {
    hide Next, Stmts, FirstFrom, IsTrace;
    var g := BuildFunction(body);
    hide BuildFunction;
    var reach, use := w[i..j + 1], w[j..];
    WalkPrefix(g, w, j + 1);
    WalkSuffix(g, w[..j + 1], i);
    assert w[..j + 1][i..] == reach;
    WalkSuffix(g, w, j);
    WalkPrefix(g, w, i + 1);
    forall k | 0 < k < |reach| - 1
      ensures reach[k] !in Kills(f, l)
    {
      assert reach[k] == w[i + k];
      KillsAre(f, l, w[i + k]);
    }
    assert Unkilled(g, reach, Kills(f, l)) && reach[0] == l.issuedAt && WalkEnd(reach) == q;
    forall k | 1 <= k < |use| - 1
      ensures !Defines(g, f, l.boundPlace, use[k])
    {
      assert use[k] == w[j + k];
    }
    assert ReadWalk(g, f, l.boundPlace, use, 1) && use[0] == q;
  }

  /** Every violation of a loan that can be issued at all is exhibited by an execution of the body. */
  lemma ViolationHasExecution(body: seq<Stmt>, f: Facts, l: Loan, q: Point, entry: seq<Point>)
    requires IsViolation(BuildFunction(body), f, l, q) && EntryWalk(body, l, entry)
    ensures exists w, i, j :: Witness(body, f, l, q, w, i, j)
  {
    hide InForce, ReadAfter, Next, IsPoint, Stmts, FirstFrom, IsTrace;
    var g := BuildFunction(body);
    var reach :| Unkilled(g, reach, Kills(f, l)) && reach[0] == l.issuedAt && WalkEnd(reach) == q;
    var use :| ReadWalk(g, f, l.boundPlace, use, 1) && use[0] == q;
    ViolationWalk(g, f, l, entry, reach, use);
    var w := JoinThree(g, entry, reach, use);
    var i, j := |entry| - 1, |entry| + |reach| - 2;
    WalkPoints(g, w);
    WalksAreExecutions(body, Stmts(g, w));
    assert Witness(body, f, l, q, w, i, j);
  }

  lemma ViolationWalk(g: Graph, f: Facts, l: Loan, entry: seq<Point>, reach: seq<Point>, use: seq<Point>)
    requires IsWalk(g, entry) && WalkEnd(entry) == l.issuedAt
    requires Unkilled(g, reach, Kills(f, l)) && reach[0] == l.issuedAt
    requires ReadWalk(g, f, l.boundPlace, use, 1) && use[0] == WalkEnd(reach)
    ensures var w, i, j := JoinedWalk(entry, reach, use), |entry| - 1, |entry| + |reach| - 2;
            InForce(f, l, w, i, j) && w[j] == WalkEnd(reach) && ReadAfter(g, f, l, w, j)
  {
    var w, i, j := JoinedWalk(entry, reach, use), |entry| - 1, |entry| + |reach| - 2;
    forall k | i < k < j
      ensures !KilledBy(f, l, w[k])
    {
      assert w[k] == reach[k - i];
      KillsAre(f, l, w[k]);
    }
    forall k | j < k < |w|
      ensures w[k] == use[k - j]
    {
    }
  }

  /** Three walks, each beginning where the one before it ends. */
  function JoinedWalk(a: seq<Point>, b: seq<Point>, c: seq<Point>): seq<Point>
    requires |a| > 0 && |b| > 0 && |c| > 0
  {
    a + b[1..] + c[1..]
  }

  lemma JoinThree(g: Graph, a: seq<Point>, b: seq<Point>, c: seq<Point>) returns (w: seq<Point>)
    requires IsWalk(g, a) && IsWalk(g, b) && IsWalk(g, c)
    requires WalkEnd(a) == b[0] && WalkEnd(b) == c[0]
    ensures w == JoinedWalk(a, b, c) && IsWalk(g, w) && w[0] == a[0]
  {
    WalkJoin(g, a, b);
    WalkJoin(g, a + b[1..], c);
    w := JoinedWalk(a, b, c);
  }
}
