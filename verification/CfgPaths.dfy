/** Paths through a built graph, and their agreement with the executions of the body. */
module CfgPaths {
  import opened Wrappers
  import opened Cfg
  import opened CfgRuns

  // ---------------------------------------------------------------- paths

  /** Just before statement `index` of a block, or at its end. */
  datatype Pos = Pos(block: BlockId, index: nat)

  ghost predicate Edge(g: Graph, p: Pos, q: Pos) {
    && p.block < |g| && q.block < |g|
    && if p.index < |g[p.block].stmts| then q == Pos(p.block, p.index + 1)
       else p.index == |g[p.block].stmts| && q.index == 0 && q.block in Successors(g[p.block])
  }

  ghost predicate IsPath(g: Graph, ps: seq<Pos>) {
    |ps| > 0 && forall i :: 0 <= i < |ps| - 1 ==> Edge(g, ps[i], ps[i + 1])
  }

  function Label(g: Graph, p: Pos): seq<Stmt> {
    if p.block < |g| && p.index < |g[p.block].stmts| then [g[p.block].stmts[p.index]] else []
  }

  /** The statements passed on the way to the last position. */
  function Labels(g: Graph, ps: seq<Pos>): seq<Stmt> {
    if |ps| <= 1 then [] else Label(g, ps[0]) + Labels(g, ps[1..])
  }

  function Last(ps: seq<Pos>): Pos
    requires |ps| > 0
  {
    ps[|ps| - 1]
  }

  /** Where a path through the function ends: at the end of a block that leaves it. */
  ghost predicate AtExit(g: Graph, p: Pos) {
    p.block < |g| && p.index == |g[p.block].stmts| && g[p.block].terminator == Exit
  }

  lemma {:induction false} LabelsSplit(g: Graph, ps: seq<Pos>, k: nat)
    requires k < |ps|
    ensures Labels(g, ps) == Labels(g, ps[..k + 1]) + Labels(g, ps[k..])
  {
    if k == 0 {
      assert ps[0..] == ps;
    } else {
      LabelsSplit(g, ps[1..], k - 1);
      assert ps[1..][..k] == ps[..k + 1][1..];
      assert ps[1..][k - 1..] == ps[k..];
      assert Labels(g, ps[..k + 1]) == Label(g, ps[0]) + Labels(g, ps[..k + 1][1..]);
    }
  }

  lemma JoinPaths(g: Graph, ps: seq<Pos>, qs: seq<Pos>) returns (rs: seq<Pos>)
    requires IsPath(g, ps) && IsPath(g, qs) && Last(ps) == qs[0]
    ensures IsPath(g, rs) && rs[0] == ps[0] && Last(rs) == Last(qs)
    ensures Labels(g, rs) == Labels(g, ps) + Labels(g, qs)
  {
    rs := ps + qs[1..];
    forall i | 0 <= i < |rs| - 1
      ensures Edge(g, rs[i], rs[i + 1])
    {
      if i < |ps| - 1 {
        assert Edge(g, ps[i], ps[i + 1]);
      } else {
        assert Edge(g, qs[i - |ps| + 1], qs[i - |ps| + 1 + 1]);
      }
    }
    LabelsSplit(g, rs, |ps| - 1);
    assert rs[..|ps|] == ps && rs[|ps| - 1..] == qs;
  }

  lemma PrependStep(g: Graph, p: Pos, qs: seq<Pos>) returns (rs: seq<Pos>)
    requires IsPath(g, qs) && Edge(g, p, qs[0])
    ensures IsPath(g, rs) && rs[0] == p && Last(rs) == Last(qs)
    ensures Labels(g, rs) == Label(g, p) + Labels(g, qs)
  {
    rs := JoinPaths(g, [p, qs[0]], qs);
    assert Labels(g, [p, qs[0]]) == Label(g, p) by {
      assert [p, qs[0]][1..] == [qs[0]];
    }
  }

  lemma AppendStep(g: Graph, ps: seq<Pos>, q: Pos) returns (rs: seq<Pos>)
    requires IsPath(g, ps) && Edge(g, Last(ps), q)
    ensures IsPath(g, rs) && rs[0] == ps[0] && Last(rs) == q
    ensures Labels(g, rs) == Labels(g, ps) + Label(g, Last(ps))
  {
    var p := Last(ps);
    assert Labels(g, [p, q]) == Label(g, p) by {
      assert [p, q][1..] == [q];
    }
    rs := JoinPaths(g, ps, [p, q]);
  }

  lemma PathSuffix(g: Graph, ps: seq<Pos>, k: nat)
    requires IsPath(g, ps) && k < |ps|
    ensures IsPath(g, ps[k..]) && ps[k..][0] == ps[k] && Last(ps[k..]) == Last(ps)
  {
    forall i | 0 <= i < |ps[k..]| - 1
      ensures Edge(g, ps[k..][i], ps[k..][i + 1])
    {
      assert Edge(g, ps[k + i], ps[k + i + 1]);
    }
  }

  // ---------------------------------------------------------------- where a built part sits in the graph

  /** `g` is a finished graph that contains the part built from block `cur` by the step that ended in
      `r`: only the tail is still open to later statements and a later terminator. */
  ghost predicate Contains(g: Graph, before: Graph, cur: BlockId, r: Built) {
    && |r.graph| <= |g|
    && (forall b :: (b == cur || |before| <= b) && 0 <= b < |r.graph| && r.tail != Some(b) ==> g[b] == r.graph[b])
    && (r.tail.Some? && r.tail.value < |r.graph| ==> r.graph[r.tail.value].stmts <= g[r.tail.value].stmts)
  }

  function Start(before: Graph, cur: BlockId): Pos
    requires cur < |before|
  {
    Pos(cur, |before[cur].stmts|)
  }

  function End(r: Built): Pos
    requires r.tail.Some? && r.tail.value < |r.graph|
  {
    Pos(r.tail.value, |r.graph[r.tail.value].stmts|)
  }

  ghost predicate LoopsWithin(loops: LoopStack, g: Graph) {
    forall l :: l in loops ==> l.0 < |g| && l.1 < |g|
  }

  /** The position at which an execution with outcome `o` leaves the part. */
  ghost predicate Leaves(o: Outcome, r: Built, loops: LoopStack, q: Pos) {
    match o
    case Normal => r.tail.Some? && r.tail.value < |r.graph| && q == End(r)
    case Broke => loops != [] ==> q == Pos(loops[|loops| - 1].1, 0)
    case Continued => loops != [] ==> q == Pos(loops[|loops| - 1].0, 0)
    case Returned => true
    case Cut => true
  }

  /** A path of the finished graph that runs like `run` from the start of the part. */
  ghost predicate Follows(g: Graph, ps: seq<Pos>, start: Pos, r: Built, loops: LoopStack, run: Run) {
    && IsPath(g, ps) && ps[0] == start && Labels(g, ps) == run.trace && Leaves(run.outcome, r, loops, Last(ps))
    && (run.outcome == Returned ==> AtExit(g, Last(ps)))
  }

  // ---------------------------------------------------------------- the parts of a part

  /** A sequence contains its first statement and the others. */
  lemma ContainsCons(g: Graph, before: Graph, loops: LoopStack, stmts: seq<Stmt>, cur: BlockId)
    requires cur < |before| && stmts != []
    requires Contains(g, before, cur, BuildBlock(before, loops, stmts, cur))
    ensures Contains(g, before, cur, BuildStmt(before, loops, stmts[0], cur))
    ensures var first := BuildStmt(before, loops, stmts[0], cur);
            first.tail.Some? ==>
              Contains(g, first.graph, first.tail.value,
                       BuildBlock(first.graph, loops, stmts[1..], first.tail.value))
  {
    var first := BuildStmt(before, loops, stmts[0], cur);
    if first.tail.Some? {
      var t := first.tail.value;
      var others := BuildBlock(first.graph, loops, stmts[1..], t);
      assert first.graph[t].stmts <= others.graph[t].stmts;
      forall b | (b == cur || |before| <= b) && 0 <= b < |first.graph| && b != t
        ensures g[b] == first.graph[b]
      {
        assert others.graph[b] == first.graph[b];
      }
    }
  }

  /** The step that logs a statement. */
  lemma LogStep(g: Graph, before: Graph, loops: LoopStack, s: Stmt, cur: BlockId)
    requires cur < |before| && Contains(g, before, cur, BuildStmt(before, loops, s, cur))
    ensures var next := Start(WithStmt(before, cur, s), cur);
            Edge(g, Start(before, cur), next) && Label(g, Start(before, cur)) == [s]
  {
    var logged := WithStmt(before, cur, s);
    var r := BuildStmt(before, loops, s, cur);
    assert logged[cur].stmts <= r.graph[cur].stmts by {
      match s
      case Scope(_, body) =>
      case _ =>
    }
    assert r.graph[cur].stmts <= g[cur].stmts;
    assert g[cur].stmts[|before[cur].stmts|] == logged[cur].stmts[|before[cur].stmts|] == s;
  }

  /** The inner step of branch `b`, which starts in a new block. */
  function Arm(mid: Graph, loops: LoopStack, b: Body): (r: Built)
    ensures Frames(mid + [EMPTY_BLOCK], |mid|, r)
  {
    BuildBlock(mid + [EMPTY_BLOCK], loops, BodyStmts(b), |mid|)
  }

  lemma BranchIsArm(mid: Graph, loops: LoopStack, b: Body)
    ensures var one, arm := BuildBranch(mid, loops, b), Arm(mid, loops, b);
            one.graph == arm.graph && forall t :: t in one.tails <==> arm.tail == Some(t)
  {
  }

  /** Branch `c` among all the branches: `mid` is the graph before it. */
  lemma ArmAmongBranches(before: Graph, loops: LoopStack, bodies: seq<Body>, c: nat) returns (mid: Graph)
    requires c < |bodies|
    ensures |before| <= |mid|
    ensures var all := BuildBranches(before, loops, bodies);
            var arm := Arm(mid, loops, bodies[c]);
            && all.entries[c] == |mid| && |arm.graph| <= |all.graph|
            && (forall b :: |mid| <= b < |arm.graph| ==> all.graph[b] == arm.graph[b])
            && (forall t :: |mid| <= t < |arm.graph| ==> (t in all.tails <==> arm.tail == Some(t)))
    decreases c
  {
    var first := BuildBranch(before, loops, bodies[0]);
    var others := BuildBranches(first.graph, loops, bodies[1..]);
    if c == 0 {
      mid := before;
      BranchIsArm(mid, loops, bodies[0]);
      forall b | |mid| <= b < |first.graph|
        ensures others.graph[b] == first.graph[b]
      {
        assert others.graph[..|first.graph|][b] == first.graph[b];
      }
    } else {
      mid := ArmAmongBranches(first.graph, loops, bodies[1..], c - 1);
    }
  }

  /** The blocks of branch `c` after the branches have been joined. */
  lemma JoinedArm(before: Graph, loops: LoopStack, bodies: seq<Body>, skip: bool, cur: BlockId, c: nat)
    returns (mid: Graph)
    requires cur < |before| && c < |bodies|
    ensures |before| <= |mid| && BuildBranches(before, loops, bodies).entries[c] == |mid|
    ensures var arm := Arm(mid, loops, bodies[c]);
            var r := BuildArms(before, loops, bodies, skip, cur);
            && |arm.graph| <= |r.graph|
            && (r.tail.Some? ==> |arm.graph| <= r.tail.value < |r.graph|)
            && (arm.tail.Some? ==> r.tail.Some?)
            && forall b :: |mid| <= b < |arm.graph| ==>
                 r.graph[b] == if arm.tail == Some(b) then arm.graph[b].(terminator := Goto(r.tail.value)) else arm.graph[b]
  {
    hide Arm, BuildBranches, Join;
    mid := ArmAmongBranches(before, loops, bodies, c);
    var all := BuildBranches(before, loops, bodies);
    var arm := Arm(mid, loops, bodies[c]);
    var bs := if skip then WithSkip(all) else all;
    assert forall b :: |mid| <= b < |arm.graph| ==> (b in bs.tails <==> arm.tail == Some(b));
    JoinRange(bs, cur, |mid|, |arm.graph|);
    assert arm.tail.Some? ==> arm.tail.value in all.tails;
  }

  lemma JoinRange(bs: Branches, cur: BlockId, lo: nat, hi: nat)
    requires cur < lo <= hi <= |bs.graph| && forall t :: t in bs.tails ==> t < |bs.graph|
    ensures var r := Join(bs, cur);
            && |bs.graph| <= |r.graph| && (bs.tails != [] ==> r.tail == Some(|bs.graph|) && |bs.graph| < |r.graph|)
            && (bs.tails == [] ==> r.tail == None)
            && forall b :: lo <= b < hi ==>
                 r.graph[b] == if b in bs.tails then bs.graph[b].(terminator := Goto(|bs.graph|)) else bs.graph[b]
  {
  }

  /** A branching statement contains each of its branches, and branches that fall through join. */
  lemma ContainsArm(g: Graph, before: Graph, loops: LoopStack, bodies: seq<Body>, skip: bool, cur: BlockId, c: nat)
    returns (mid: Graph)
    requires cur < |before| && Contains(g, before, cur, BuildArms(before, loops, bodies, skip, cur))
    requires c < |bodies|
    ensures |Successors(g[cur])| > c && Successors(g[cur])[c] == |mid| < |g|
    ensures var arm := Arm(mid, loops, bodies[c]);
            var r := BuildArms(before, loops, bodies, skip, cur);
            && Contains(g, mid + [EMPTY_BLOCK], |mid|, arm)
            && (arm.tail.Some? ==> r.tail.Some? && r.tail.value < |g| &&
                                   g[arm.tail.value] == BasicBlock(arm.graph[arm.tail.value].stmts, Goto(r.tail.value)))
  {
    hide BuildArms, BuildBranches, Arm;
    mid := JoinedArm(before, loops, bodies, skip, cur, c);
    ArmsSuccessors(g, before, loops, bodies, skip, cur);
    var arm := Arm(mid, loops, bodies[c]);
    var r := BuildArms(before, loops, bodies, skip, cur);
    assert forall b :: |mid| <= b < |arm.graph| ==> g[b] == r.graph[b];
  }

  /** The successors of a branching statement. */
  lemma ArmsSuccessors(g: Graph, before: Graph, loops: LoopStack, bodies: seq<Body>, skip: bool, cur: BlockId)
    requires cur < |before| && Contains(g, before, cur, BuildArms(before, loops, bodies, skip, cur))
    ensures |Successors(g[cur])| == |bodies| + (if skip then 1 else 0)
    ensures Successors(g[cur])[..|bodies|] == BuildBranches(before, loops, bodies).entries
    ensures g[cur].stmts == before[cur].stmts && g[cur].terminator.Branch?
    ensures skip ==> var e := Successors(g[cur])[|bodies|];
                     var r := BuildArms(before, loops, bodies, skip, cur);
                     e < |g| && r.tail.Some? && r.tail.value < |g| && g[e] == BasicBlock([], Goto(r.tail.value))
    ensures var r := BuildArms(before, loops, bodies, skip, cur);
            r.tail.Some? ==> r.tail.value < |r.graph| && r.graph[r.tail.value] == EMPTY_BLOCK
  {
    var all := BuildBranches(before, loops, bodies);
    var bs := if skip then WithSkip(all) else all;
    var r := BuildArms(before, loops, bodies, skip, cur);
    assert r == Join(bs, cur);
    assert g[cur] == r.graph[cur];
    assert cur !in bs.tails;
    assert bs.graph[..|before|][cur] == before[cur] by {
      assert all.graph[..|before|] == before;
    }
    if skip {
      assert |all.graph| in bs.tails;
    }
  }

  /** A conditional loop contains its body, between the header and the exit. */
  lemma ContainsCondLoop(g: Graph, before: Graph, loops: LoopStack, body: seq<Stmt>, cur: BlockId)
    requires cur < |before| && Contains(g, before, cur, BuildCondLoop(before, loops, body, cur))
    ensures var h := |before|;
            var open := OpenCondLoop(before, cur);
            var inner := BuildBlock(open, loops + [(h, h + 2)], body, h + 1);
            && |inner.graph| <= |g|
            && Contains(g, open, h + 1, inner)
            && g[cur] == BasicBlock(before[cur].stmts, Goto(h))
            && g[h] == BasicBlock([], Branch([h + 1, h + 2]))
            && (inner.tail.Some? ==> g[inner.tail.value] == BasicBlock(inner.graph[inner.tail.value].stmts, Goto(h)))
            && BuildCondLoop(before, loops, body, cur).graph[h + 2] == EMPTY_BLOCK
  {
    var h := |before|;
    var open := OpenCondLoop(before, cur);
    var inner := BuildBlock(open, loops + [(h, h + 2)], body, h + 1);
    assert BuildCondLoop(before, loops, body, cur).graph == CloseLoop(inner, h);
  }

  lemma ContainsLoop(g: Graph, before: Graph, loops: LoopStack, body: seq<Stmt>, cur: BlockId)
    requires cur < |before| && Contains(g, before, cur, BuildLoop(before, loops, body, cur))
    ensures var h := |before|;
            var open := OpenLoop(before, cur);
            var inner := BuildBlock(open, loops + [(h, h + 1)], body, h);
            && |inner.graph| <= |g|
            && Contains(g, open, h, inner)
            && g[cur] == BasicBlock(before[cur].stmts, Goto(h))
            && (inner.tail.Some? ==> g[inner.tail.value] == BasicBlock(inner.graph[inner.tail.value].stmts, Goto(h)))
            && BuildLoop(before, loops, body, cur).graph[h + 1] == EMPTY_BLOCK
  {
    var h := |before|;
    var open := OpenLoop(before, cur);
    var inner := BuildBlock(open, loops + [(h, h + 1)], body, h);
    assert BuildLoop(before, loops, body, cur).graph == CloseLoop(inner, h);
  }
}
