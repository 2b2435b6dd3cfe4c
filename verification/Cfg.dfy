/** The control-flow graph of a LOW-tier function body (crates/core/src/sema/cfg.rs). */
module Cfg {
  import opened Wrappers

  // ---------------------------------------------------------------- statements

  /** A statement, identified by `id`. A `Plain` statement has no control flow of its own (let,
      expression, extract, defer), the branches of an `If` are its `then`, `elif` and `else` bodies in
      order, a `CondLoop` is a `while` or `for`, and a `Scope` is `with`,
      `using` or `unsafe`. */
  datatype Stmt =
    | Plain(id: nat)
    | Return(id: nat)
    | Break(id: nat)
    | Continue(id: nat)
    | If(id: nat, branches: seq<Body>, hasElse: bool)
    | Match(id: nat, arms: seq<Body>)
    | CondLoop(id: nat, body: seq<Stmt>)
    | Loop(id: nat, body: seq<Stmt>)
    | Scope(id: nat, body: seq<Stmt>)

  /** A branch: a block, or a single expression that the graph does not look into. */
  datatype Body = Block(stmts: seq<Stmt>) | Expr

  /** The statements of a branch that the graph records. */
  function BodyStmts(b: Body): seq<Stmt> {
    match b
    case Block(stmts) => stmts
    case Expr => []
  }

  // ---------------------------------------------------------------- graphs

  type BlockId = nat

  datatype Terminator =
    | Goto(target: BlockId)
    | Branch(targets: seq<BlockId>)
    | Exit
    | Unreachable

  datatype BasicBlock = BasicBlock(stmts: seq<Stmt>, terminator: Terminator)

  type Graph = seq<BasicBlock>

  const EMPTY_BLOCK := BasicBlock([], Exit)

  function Successors(b: BasicBlock): seq<BlockId> {
    match b.terminator
    case Goto(t) => [t]
    case Branch(ts) => ts
    case Exit => []
    case Unreachable => []
  }

  // ---------------------------------------------------------------- what each build step computes

  /** Innermost-last stack of loop headers and exits. */
  type LoopStack = seq<(BlockId, BlockId)>

  datatype Built = Built(graph: Graph, tail: Option<BlockId>)

  function WithTerm(g: Graph, b: BlockId, t: Terminator): (r: Graph)
    requires b < |g|
    ensures |r| == |g|
  {
    g[b := g[b].(terminator := t)]
  }

  function WithStmt(g: Graph, b: BlockId, s: Stmt): (r: Graph)
    requires b < |g|
    ensures |r| == |g|
  {
    g[b := g[b].(stmts := g[b].stmts + [s])]
  }

  /** The tail of a build step is its starting block or a block it created, and it leaves all other
      existing blocks alone. */
  ghost predicate Frames(g: Graph, cur: BlockId, r: Built) {
    && cur < |g| <= |r.graph|
    && (forall b :: 0 <= b < |g| && b != cur ==> r.graph[b] == g[b])
    && g[cur].stmts <= r.graph[cur].stmts
    && (r.tail.Some? ==> r.tail.value < |r.graph| && (r.tail.value == cur || r.tail.value >= |g|))
  }

  function BuildBlock(g: Graph, loops: LoopStack, stmts: seq<Stmt>, cur: BlockId): (r: Built)
    requires cur < |g|
    ensures Frames(g, cur, r)
    decreases stmts, 0
  {
    if stmts == [] then Built(g, Some(cur))
    else
      var first := BuildStmt(g, loops, stmts[0], cur);
      if first.tail.None? then first
      else BuildBlock(first.graph, loops, stmts[1..], first.tail.value)
  }

  function BuildStmt(g: Graph, loops: LoopStack, s: Stmt, cur: BlockId): (r: Built)
    requires cur < |g|
    ensures Frames(g, cur, r)
    decreases s, 0
  {
    var g := WithStmt(g, cur, s);
    match s
    case Plain(_) => Built(g, Some(cur))
    case Return(_) => Built(WithTerm(g, cur, Exit), None)
    case Break(_) => Built(WithTerm(g, cur, BreakTarget(loops)), None)
    case Continue(_) => Built(WithTerm(g, cur, ContinueTarget(loops)), None)
    case If(_, branches, hasElse) => BuildArms(g, loops, branches, !hasElse, cur)
    case Match(_, arms) => BuildArms(g, loops, arms, false, cur)
    case CondLoop(_, body) => BuildCondLoop(g, loops, body, cur)
    case Loop(_, body) => BuildLoop(g, loops, body, cur)
    case Scope(_, body) => BuildBlock(g, loops, body, cur)
  }

  function BuildArms(g: Graph, loops: LoopStack, bodies: seq<Body>, skip: bool, cur: BlockId): (r: Built)
    requires cur < |g|
    ensures Frames(g, cur, r)
    decreases bodies, 1
  {
    var bs := BuildBranches(g, loops, bodies);
    Join(if skip then WithSkip(bs) else bs, cur)
  }

  function BuildCondLoop(g: Graph, loops: LoopStack, body: seq<Stmt>, cur: BlockId): (r: Built)
    requires cur < |g|
    ensures Frames(g, cur, r)
    decreases body, 1
  {
    var header := |g|;
    var inner := BuildBlock(OpenCondLoop(g, cur), loops + [(header, header + 2)], body, header + 1);
    Built(CloseLoop(inner, header), Some(header + 2))
  }

  function BuildLoop(g: Graph, loops: LoopStack, body: seq<Stmt>, cur: BlockId): (r: Built)
    requires cur < |g|
    ensures Frames(g, cur, r)
    decreases body, 1
  {
    var header := |g|;
    var inner := BuildBlock(OpenLoop(g, cur), loops + [(header, header + 1)], body, header);
    Built(CloseLoop(inner, header), Some(header + 1))
  }

  function BreakTarget(loops: LoopStack): Terminator {
    if loops == [] then Unreachable else Goto(loops[|loops| - 1].1)
  }

  function ContinueTarget(loops: LoopStack): Terminator {
    if loops == [] then Unreachable else Goto(loops[|loops| - 1].0)
  }

  /** The header, body entry and exit blocks of a conditional loop. */
  function OpenCondLoop(g: Graph, cur: BlockId): (r: Graph)
    requires cur < |g|
    ensures |r| == |g| + 3
    ensures forall b :: 0 <= b < |g| && b != cur ==> r[b] == g[b]
    ensures r[cur] == BasicBlock(g[cur].stmts, Goto(|g|))
    ensures r[|g|] == BasicBlock([], Branch([|g| + 1, |g| + 2]))
    ensures r[|g| + 1] == r[|g| + 2] == EMPTY_BLOCK
  {
    WithTerm(g, cur, Goto(|g|)) + [BasicBlock([], Branch([|g| + 1, |g| + 2])), EMPTY_BLOCK, EMPTY_BLOCK]
  }

  /** The header, which is also the body entry, and the exit block of a `loop`. */
  function OpenLoop(g: Graph, cur: BlockId): (r: Graph)
    requires cur < |g|
    ensures |r| == |g| + 2
    ensures forall b :: 0 <= b < |g| && b != cur ==> r[b] == g[b]
    ensures r[cur] == BasicBlock(g[cur].stmts, Goto(|g|))
    ensures r[|g|] == r[|g| + 1] == EMPTY_BLOCK
  {
    WithTerm(g, cur, Goto(|g|)) + [EMPTY_BLOCK, EMPTY_BLOCK]
  }

  /** The back edge from the end of a loop body. */
  function CloseLoop(body: Built, header: BlockId): (r: Graph)
    requires body.tail.Some? ==> body.tail.value < |body.graph|
    ensures |r| == |body.graph|
  {
    if body.tail.Some? then WithTerm(body.graph, body.tail.value, Goto(header)) else body.graph
  }

  /** One branch: its entry block, and the block it falls through from, if it does. */
  datatype Branched = Branched(graph: Graph, entry: BlockId, tails: seq<BlockId>)

  function BuildBranch(g: Graph, loops: LoopStack, body: Body): (r: Branched)
    ensures |g| < |r.graph| && r.graph[..|g|] == g && r.entry == |g|
    ensures forall t :: t in r.tails ==> |g| <= t < |r.graph|
    decreases body, 0
  {
    var entry := |g|;
    match body
    case Block(stmts) =>
      var r := BuildBlock(g + [EMPTY_BLOCK], loops, stmts, entry);
      Branched(r.graph, entry, if r.tail.Some? then [r.tail.value] else [])
    case Expr => Branched(g + [EMPTY_BLOCK], entry, [entry])
  }

  datatype Branches = Branches(graph: Graph, entries: seq<BlockId>, tails: seq<BlockId>)

  function BuildBranches(g: Graph, loops: LoopStack, bodies: seq<Body>): (r: Branches)
    ensures |g| <= |r.graph| && r.graph[..|g|] == g && |r.entries| == |bodies|
    ensures forall t :: t in r.tails ==> |g| <= t < |r.graph|
    decreases bodies, 0
  {
    if bodies == [] then Branches(g, [], [])
    else
      var first := BuildBranch(g, loops, bodies[0]);
      var others := BuildBranches(first.graph, loops, bodies[1..]);
      Branches(others.graph, [first.entry] + others.entries, first.tails + others.tails)
  }

  /** The pass-through branch of an `if` without `else`. */
  function WithSkip(bs: Branches): (r: Branches)
    requires forall t :: t in bs.tails ==> t < |bs.graph|
    ensures r.graph == bs.graph + [EMPTY_BLOCK]
    ensures r.entries == bs.entries + [|bs.graph|] && r.tails == bs.tails + [|bs.graph|]
    ensures forall t :: t in r.tails ==> t in bs.tails || t == |bs.graph|
  {
    Branches(bs.graph + [EMPTY_BLOCK], bs.entries + [|bs.graph|], bs.tails + [|bs.graph|])
  }

  /** Ends `cur` with a branch to every entry and converges the tails. */
  function Join(bs: Branches, cur: BlockId): (r: Built)
    requires cur < |bs.graph| && forall t :: t in bs.tails ==> t < |bs.graph|
  {
    Converge(WithTerm(bs.graph, cur, Branch(bs.entries)), bs.tails)
  }

  function WithGotos(g: Graph, points: seq<BlockId>, target: BlockId): (r: Graph)
    requires forall p :: p in points ==> p < |g|
    ensures |r| == |g|
    ensures forall b :: 0 <= b < |g| ==>
              r[b] == if b in points then g[b].(terminator := Goto(target)) else g[b]
    decreases |points|
  {
    if points == [] then g
    else
      assert points[0] in points && forall p :: p in points[1..] ==> p in points;
      WithGotos(WithTerm(g, points[0], Goto(target)), points[1..], target)
  }

  /** Joins every block in `points` into one new block; there is none if nothing falls through. */
  function Converge(g: Graph, points: seq<BlockId>): (r: Built)
    requires forall p :: p in points ==> p < |g|
    ensures |r.graph| == if points == [] then |g| else |g| + 1
    ensures r.tail == if points == [] then None else Some(|g|)
    ensures forall b :: 0 <= b < |g| ==>
              r.graph[b] == if b in points then g[b].(terminator := Goto(|g|)) else g[b]
    ensures points != [] ==> r.graph[|g|] == EMPTY_BLOCK
  {
    if points == [] then Built(g, None)
    else Built(WithGotos(g + [EMPTY_BLOCK], points, |g|), Some(|g|))
  }

  function BuildFunction(body: seq<Stmt>): Graph {
    var r := BuildBlock([EMPTY_BLOCK], [], body, 0);
    if r.tail.Some? then WithTerm(r.graph, r.tail.value, Exit) else r.graph
  }
}
