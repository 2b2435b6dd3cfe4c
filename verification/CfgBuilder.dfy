/** The graph builder as the program runs it: blocks are appended and overwritten in place. */
module CfgBuilder {
  import opened Wrappers
  import opened Cfg

  /** The graph of a function body; a body that falls off its end returns. */
  method Build(body: seq<Stmt>) returns (g: Graph)
    ensures g == BuildFunction(body)
  {
    var b := new Builder();
    var entry := b.NewBlock();
    assert b.blocks == [EMPTY_BLOCK];
    var tail := b.BuildBlock(body, entry);
    if tail.Some? {
      b.SetTerminator(tail.value, Exit);
    }
    return b.blocks;
  }

  class Builder {
    var blocks: Graph
    var loopStack: LoopStack

    constructor ()
      ensures blocks == [] && loopStack == []
    {
      blocks, loopStack := [], [];
    }

    method NewBlock() returns (id: BlockId)
      modifies this
      ensures id == |old(blocks)| && blocks == old(blocks) + [EMPTY_BLOCK] && loopStack == old(loopStack)
    {
      id := |blocks|;
      blocks := blocks + [EMPTY_BLOCK];
    }

    method SetTerminator(id: BlockId, t: Terminator)
      requires id < |blocks|
      modifies this
      ensures blocks == WithTerm(old(blocks), id, t) && loopStack == old(loopStack)
    {
      blocks := blocks[id := blocks[id].(terminator := t)];
    }

    method PushStmt(id: BlockId, s: Stmt)
      requires id < |blocks|
      modifies this
      ensures blocks == WithStmt(old(blocks), id, s) && loopStack == old(loopStack)
    {
      blocks := blocks[id := blocks[id].(stmts := blocks[id].stmts + [s])];
    }

    /** Builds the statements of a block starting in `start`; no tail means that every way out has
        already ended. */
    method BuildBlock(stmts: seq<Stmt>, start: BlockId) returns (tail: Option<BlockId>)
      requires start < |blocks|
      modifies this
      ensures Built(blocks, tail) == Cfg.BuildBlock(old(blocks), old(loopStack), stmts, start)
      ensures loopStack == old(loopStack)
      decreases stmts, 0
    {
      var current: BlockId := start;
      assert stmts[0..] == stmts;
      for i := 0 to |stmts|
        invariant current < |blocks| && loopStack == old(loopStack)
        invariant Cfg.BuildBlock(blocks, loopStack, stmts[i..], current) ==
                  Cfg.BuildBlock(old(blocks), old(loopStack), stmts, start)
      {
        var next := BuildStmt(stmts[i], current);
        assert stmts[i..][1..] == stmts[i + 1..];
        if next.None? {
          return None;
        }
        current := next.value;
      }
      return Some(current);
    }

    method BuildStmt(s: Stmt, current: BlockId) returns (tail: Option<BlockId>)
      requires current < |blocks|
      modifies this
      ensures Built(blocks, tail) == Cfg.BuildStmt(old(blocks), old(loopStack), s, current)
      ensures loopStack == old(loopStack)
      decreases s, 0
    {
      PushStmt(current, s);
      match s {
        case Plain(_) => tail := Some(current);
        case Return(_) =>
          SetTerminator(current, Exit);
          tail := None;
        case Break(_) =>
          if loopStack == [] {
            SetTerminator(current, Unreachable);
          } else {
            SetTerminator(current, Goto(loopStack[|loopStack| - 1].1));
          }
          tail := None;
        case Continue(_) =>
          if loopStack == [] {
            SetTerminator(current, Unreachable);
          } else {
            SetTerminator(current, Goto(loopStack[|loopStack| - 1].0));
          }
          tail := None;
        case If(_, branches, hasElse) => tail := BuildArms(branches, !hasElse, current);
        case Match(_, arms) => tail := BuildArms(arms, false, current);
        case CondLoop(_, body) => tail := BuildConditionalLoop(body, current);
        case Loop(_, body) => tail := BuildUnconditionalLoop(body, current);
        case Scope(_, body) => tail := BuildBlock(body, current);
      }
    }

    /** The branches of an `if` or `match`, a pass-through block when nothing may run, and the join. */
    method BuildArms(bodies: seq<Body>, skip: bool, current: BlockId) returns (tail: Option<BlockId>)
      requires current < |blocks|
      modifies this
      ensures Built(blocks, tail) == Cfg.BuildArms(old(blocks), old(loopStack), bodies, skip, current)
      ensures loopStack == old(loopStack)
      decreases bodies, 1
    {
      var targets, converge := BuildBranches(bodies);
      ghost var all := Cfg.BuildBranches(old(blocks), old(loopStack), bodies);
      SetTerminator(current, Branch(targets));
      if skip {
        var pass := NewBlock();
        SetTerminator(current, Branch(targets + [pass]));
        converge := converge + [pass];
        assert blocks == WithTerm(all.graph + [EMPTY_BLOCK], current, Branch(targets + [pass]));
      }
      tail := Converge(converge);
    }

    method BuildBranches(bodies: seq<Body>) returns (targets: seq<BlockId>, converge: seq<BlockId>)
      modifies this
      ensures Branches(blocks, targets, converge) == Cfg.BuildBranches(old(blocks), old(loopStack), bodies)
      ensures loopStack == old(loopStack)
      decreases bodies, 0
    {
      targets, converge := [], [];
      ghost var g, loops := blocks, loopStack;
      assert bodies[0..] == bodies;
      for i := 0 to |bodies|
        invariant loopStack == loops
        invariant Continues(g, loops, bodies, Branches(blocks, targets, converge), bodies[i..])
      {
        ghost var done := Branches(blocks, targets, converge);
        assert bodies[i..][1..] == bodies[i + 1..];
        var entry, tail := BuildBranchBody(bodies[i]);
        targets := targets + [entry];
        if tail.Some? {
          converge := converge + [tail.value];
        }
        ContinuesStep(g, loops, bodies, done, bodies[i..], Branches(blocks, targets, converge));
      }
    }

    /** Building the branches `left` after `done` completes the build of all `bodies`. */
    static ghost predicate Continues(g: Graph, loops: LoopStack, bodies: seq<Body>, done: Branches, left: seq<Body>) {
      var others := Cfg.BuildBranches(done.graph, loops, left);
      Cfg.BuildBranches(g, loops, bodies) ==
      Branches(others.graph, done.entries + others.entries, done.tails + others.tails)
    }

    static lemma ContinuesStep(g: Graph, loops: LoopStack, bodies: seq<Body>, done: Branches, left: seq<Body>,
                               next: Branches)
      requires left != [] && Continues(g, loops, bodies, done, left)
      requires var one := Cfg.BuildBranch(done.graph, loops, left[0]);
               next == Branches(one.graph, done.entries + [one.entry], done.tails + one.tails)
      ensures Continues(g, loops, bodies, next, left[1..])
    {
      var one := Cfg.BuildBranch(done.graph, loops, left[0]);
      var others := Cfg.BuildBranches(one.graph, loops, left[1..]);
      assert done.entries + ([one.entry] + others.entries) == next.entries + others.entries;
      assert done.tails + (one.tails + others.tails) == next.tails + others.tails;
    }

    method BuildBranchBody(body: Body) returns (entry: BlockId, tail: Option<BlockId>)
      modifies this
      ensures Branched(blocks, entry, if tail.Some? then [tail.value] else []) ==
              Cfg.BuildBranch(old(blocks), old(loopStack), body)
      ensures loopStack == old(loopStack)
      decreases body, 0
    {
      entry := NewBlock();
      match body {
        case Block(stmts) => tail := BuildBlock(stmts, entry);
        case Expr => tail := Some(entry);
      }
    }

    method Converge(points: seq<BlockId>) returns (tail: Option<BlockId>)
      requires forall p :: p in points ==> p < |blocks|
      modifies this
      ensures Built(blocks, tail) == Cfg.Converge(old(blocks), points)
      ensures loopStack == old(loopStack)
    {
      if points == [] {
        return None;
      }
      var after := NewBlock();
      assert points[0..] == points;
      forall k | 0 <= k < |points|
        ensures points[k] < |blocks|
      {
        assert points[k] in points;
      }
      for i := 0 to |points|
        invariant loopStack == old(loopStack) && |blocks| == |old(blocks)| + 1
        invariant forall k :: 0 <= k < |points| ==> points[k] < |blocks|
        invariant WithGotos(blocks, points[i..], after) == WithGotos(old(blocks) + [EMPTY_BLOCK], points, after)
      {
        assert points[i] in points[i..] && points[i..][1..] == points[i + 1..];
        SetTerminator(points[i], Goto(after));
      }
      return Some(after);
    }

    method BuildConditionalLoop(body: seq<Stmt>, current: BlockId) returns (tail: Option<BlockId>)
      requires current < |blocks|
      modifies this
      ensures Built(blocks, tail) == Cfg.BuildCondLoop(old(blocks), old(loopStack), body, current)
      ensures loopStack == old(loopStack)
      decreases body, 1
    {
      var header := NewBlock();
      SetTerminator(current, Goto(header));
      var bodyEntry := NewBlock();
      var exit := NewBlock();
      SetTerminator(header, Branch([bodyEntry, exit]));
      assert blocks == OpenCondLoop(old(blocks), current);
      loopStack := loopStack + [(header, exit)];
      var end := BuildBlock(body, bodyEntry);
      if end.Some? {
        SetTerminator(end.value, Goto(header));
      }
      loopStack := loopStack[..|loopStack| - 1];
      return Some(exit);
    }

    method BuildUnconditionalLoop(body: seq<Stmt>, current: BlockId) returns (tail: Option<BlockId>)
      requires current < |blocks|
      modifies this
      ensures Built(blocks, tail) == Cfg.BuildLoop(old(blocks), old(loopStack), body, current)
      ensures loopStack == old(loopStack)
      decreases body, 1
    {
      var header := NewBlock();
      SetTerminator(current, Goto(header));
      var exit := NewBlock();
      assert blocks == OpenLoop(old(blocks), current);
      loopStack := loopStack + [(header, exit)];
      var end := BuildBlock(body, header);
      if end.Some? {
        SetTerminator(end.value, Goto(header));
      }
      loopStack := loopStack[..|loopStack| - 1];
      return Some(exit);
    }
  }
}
