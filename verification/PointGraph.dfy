/** The point graph of the borrow checker: one node per statement, empty blocks skipped
    (crates/core/src/sema/borrow_check.rs, first_points_of and succ_points). */
module PointGraph {
  import opened Wrappers
  import opened Cfg
  import opened CfgRuns
  import opened CfgPaths
  import opened CfgCorrect

  datatype Point = Point(block: BlockId, index: nat)

  predicate IsPoint(g: Graph, p: Point) {
    p.block < |g| && p.index < |g[p.block].stmts|
  }

  function StmtAt(g: Graph, p: Point): Stmt
    requires IsPoint(g, p)
  {
    g[p.block].stmts[p.index]
  }

  function PosOf(p: Point): Pos {
    Pos(p.block, p.index)
  }

  /** Every terminator names blocks of the graph. */
  ghost predicate Closed(g: Graph) {
    forall b, t :: 0 <= b < |g| && t in Successors(g[b]) ==> t < |g|
  }

  /** `q` can be reached without running a statement. */
  ghost predicate Silently(g: Graph, p: Pos, q: Pos) {
    exists ps :: IsPath(g, ps) && ps[0] == p && Last(ps) == q && Labels(g, ps) == []
  }

  /** `q` may be the first statement to run at or after position `p`. */
  ghost predicate FirstFrom(g: Graph, p: Pos, q: Point) {
    IsPoint(g, q) && Silently(g, p, PosOf(q))
  }

  /** `q` may run right after `p`. */
  ghost predicate Next(g: Graph, p: Point, q: Point) {
    IsPoint(g, p) && FirstFrom(g, Pos(p.block, p.index + 1), q)
  }

  // ---------------------------------------------------------------- silent paths, one step at a time

  lemma SilentlyHere(g: Graph, p: Pos)
    ensures Silently(g, p, p)
  {
    assert IsPath(g, [p]) && Last([p]) == p && Labels(g, [p]) == [];
  }

  lemma SilentlyStep(g: Graph, p: Pos, m: Pos, q: Pos)
    requires Edge(g, p, m) && Label(g, p) == [] && Silently(g, m, q)
    ensures Silently(g, p, q)
  {
    var ps :| IsPath(g, ps) && ps[0] == m && Last(ps) == q && Labels(g, ps) == [];
    var rs := PrependStep(g, p, ps);
  }

  /** A silent path that leaves its start takes a silent first step. */
  lemma SilentlyInvert(g: Graph, p: Pos, q: Pos) returns (m: Pos)
    requires Silently(g, p, q) && p != q
    ensures Edge(g, p, m) && Label(g, p) == [] && Silently(g, m, q)
  {
    var ps :| IsPath(g, ps) && ps[0] == p && Last(ps) == q && Labels(g, ps) == [];
    m := ps[1];
    assert Edge(g, ps[0], ps[0 + 1]);
    PathSuffix(g, ps, 1);
    assert Labels(g, ps) == Label(g, ps[0]) + Labels(g, ps[1..]);
  }

  /** From a statement, the first statement to run is that one. */
  lemma FirstFromPoint(g: Graph, p: Point, q: Point)
    requires IsPoint(g, p)
    ensures FirstFrom(g, PosOf(p), q) <==> q == p
  {
    SilentlyHere(g, PosOf(p));
    if FirstFrom(g, PosOf(p), q) && q != p {
      var m := SilentlyInvert(g, PosOf(p), PosOf(q));
    }
  }

  /** From the end of a block, the first statement to run is found in a successor. */
  lemma FirstFromEnd(g: Graph, b: BlockId, q: Point)
    requires Closed(g) && b < |g|
    ensures FirstFrom(g, Pos(b, |g[b].stmts|), q) <==>
            exists t :: t in Successors(g[b]) && FirstFrom(g, Pos(t, 0), q)
  {
    var e := Pos(b, |g[b].stmts|);
    if FirstFrom(g, e, q) {
      var m := SilentlyInvert(g, e, PosOf(q));
    }
    if t :| t in Successors(g[b]) && FirstFrom(g, Pos(t, 0), q) {
      SilentlyStep(g, e, Pos(t, 0), PosOf(q));
    }
  }

  // ---------------------------------------------------------------- first_points_of

  ghost predicate IsBlock(g: Graph, b: BlockId) {
    b < |g|
  }

  ghost function Blocks(g: Graph): set<BlockId> {
    set b: BlockId | 0 <= b < |g| && IsBlock(g, b)
  }

  /** The blocks entered since `before` are finished: their first statement is listed, or, for an
      empty block, its successors have been entered too. */
  ghost predicate Finished(g: Graph, before: set<BlockId>, seen: set<BlockId>, out: seq<Point>) {
    forall b :: b in seen && b !in before && b < |g| ==>
      if g[b].stmts != [] then Point(b, 0) in out
      else forall t :: t in Successors(g[b]) ==> t in seen
  }

  method FirstPointsOf(g: Graph, block: BlockId, seen: set<BlockId>) returns (out: seq<Point>, seen': set<BlockId>)
    requires Closed(g) && block < |g|
    ensures seen <= seen' && block in seen'
    ensures Finished(g, seen, seen', out)
    ensures forall q :: q in out ==> FirstFrom(g, Pos(block, 0), q)
    decreases Blocks(g) - seen
  {
    if block in seen {
      return [], seen;
    }
    seen' := seen + {block};
    if g[block].stmts != [] {
      FirstFromPoint(g, Point(block, 0), Point(block, 0));
      return [Point(block, 0)], seen';
    }
    out := [];
    var succs := Successors(g[block]);
    for i := 0 to |succs|
      invariant seen + {block} <= seen'
      invariant forall k :: 0 <= k < i ==> succs[k] in seen'
      invariant Finished(g, seen + {block}, seen', out)
      invariant forall q :: q in out ==> FirstFrom(g, Pos(block, 0), q)
    {
      assert succs[i] in Successors(g[block]);
      ghost var before := seen';
      var points, entered := FirstPointsOf(g, succs[i], seen');
      FinishedMore(g, seen + {block}, before, out, entered, points);
      forall q | q in points
        ensures FirstFrom(g, Pos(block, 0), q)
      {
        FirstFromEnd(g, block, q);
      }
      out, seen' := out + points, entered;
    }
  }

  lemma FinishedMore(g: Graph, start: set<BlockId>, before: set<BlockId>, out: seq<Point>,
                     seen: set<BlockId>, points: seq<Point>)
    requires start <= before <= seen
    requires Finished(g, start, before, out) && Finished(g, before, seen, points)
    ensures Finished(g, start, seen, out + points)
  {
  }

  /** When nothing was seen before, every first statement is listed. */
  lemma {:induction false} FinishedIsComplete(g: Graph, seen: set<BlockId>, out: seq<Point>, ps: seq<Pos>)
    requires Closed(g) && Finished(g, {}, seen, out)
    requires IsPath(g, ps) && ps[0].block in seen && ps[0].block < |g| && ps[0].index == 0 && Labels(g, ps) == []
    requires IsPoint(g, Point(Last(ps).block, Last(ps).index))
    ensures Point(Last(ps).block, Last(ps).index) in out
    decreases |ps|
  {
    if |ps| > 1 {
      assert Edge(g, ps[0], ps[0 + 1]);
      PathSuffix(g, ps, 1);
      assert Labels(g, ps) == Label(g, ps[0]) + Labels(g, ps[1..]);
      FinishedIsComplete(g, seen, out, ps[1..]);
    }
  }

  // ---------------------------------------------------------------- succ_points

  method SuccPoints(g: Graph, p: Point) returns (out: seq<Point>)
    requires Closed(g) && IsPoint(g, p)
    ensures forall q :: q in out <==> Next(g, p, q)
  {
    if p.index + 1 < |g[p.block].stmts| {
      forall q
        ensures Next(g, p, q) <==> q == Point(p.block, p.index + 1)
      {
        FirstFromPoint(g, Point(p.block, p.index + 1), q);
      }
      return [Point(p.block, p.index + 1)];
    }
    out := [];
    var succs := Successors(g[p.block]);
    for i := 0 to |succs|
      invariant forall q :: q in out <==> exists k :: 0 <= k < i && FirstFrom(g, Pos(succs[k], 0), q)
    {
      assert succs[i] in Successors(g[p.block]);
      var points, seen := FirstPointsOf(g, succs[i], {});
      forall q | FirstFrom(g, Pos(succs[i], 0), q)
        ensures q in points
      {
        var ps :| IsPath(g, ps) && ps[0] == Pos(succs[i], 0) && Last(ps) == PosOf(q) && Labels(g, ps) == [];
        FinishedIsComplete(g, seen, points, ps);
      }
      out := out + points;
    }
    forall q
      ensures q in out <==> Next(g, p, q)
    {
      FirstFromEnd(g, p.block, q);
    }
  }

  method AllPoints(g: Graph) returns (pts: seq<Point>)
    ensures forall p :: p in pts <==> IsPoint(g, p)
    ensures forall i, j :: 0 <= i < j < |pts| ==> pts[i] != pts[j]
  {
    pts := [];
    for b := 0 to |g|
      invariant forall p :: p in pts <==> IsPoint(g, p) && p.block < b
      invariant forall i, j :: 0 <= i < j < |pts| ==> pts[i] != pts[j]
    {
      ghost var before := pts;
      for i := 0 to |g[b].stmts|
        invariant forall p :: p in pts <==> p in before || (p.block == b && p.index < i)
        invariant forall i, j :: 0 <= i < j < |pts| ==> pts[i] != pts[j]
      {
        assert Point(b, i) !in pts;
        pts := pts + [Point(b, i)];
      }
    }
  }

  // ---------------------------------------------------------------- walks over points

  ghost predicate IsWalk(g: Graph, w: seq<Point>) {
    && |w| > 0 && IsPoint(g, w[0])
    && forall i :: 0 <= i < |w| - 1 ==> Next(g, w[i], w[i + 1])
  }

  function WalkEnd(w: seq<Point>): Point
    requires |w| > 0
  {
    w[|w| - 1]
  }

  lemma WalkPoints(g: Graph, w: seq<Point>)
    requires IsWalk(g, w)
    ensures forall i :: 0 <= i < |w| ==> IsPoint(g, w[i])
  {
    forall i | 0 <= i < |w|
      ensures IsPoint(g, w[i])
    {
      if i > 0 {
        assert Next(g, w[i - 1], w[i - 1 + 1]);
      }
    }
  }

  lemma WalkSuffix(g: Graph, w: seq<Point>, k: nat)
    requires IsWalk(g, w) && k < |w|
    ensures IsWalk(g, w[k..]) && WalkEnd(w[k..]) == WalkEnd(w)
  {
    WalkPoints(g, w);
    forall i | 0 <= i < |w[k..]| - 1
      ensures Next(g, w[k..][i], w[k..][i + 1])
    {
      assert Next(g, w[k + i], w[k + i + 1]);
    }
  }

  lemma WalkPrefix(g: Graph, w: seq<Point>, k: nat)
    requires IsWalk(g, w) && 0 < k <= |w|
    ensures IsWalk(g, w[..k])
  {
    forall i | 0 <= i < |w[..k]| - 1
      ensures Next(g, w[..k][i], w[..k][i + 1])
    {
      assert Next(g, w[i], w[i + 1]);
    }
  }

  lemma WalkAppend(g: Graph, w: seq<Point>, q: Point)
    requires IsWalk(g, w) && Next(g, WalkEnd(w), q)
    ensures IsWalk(g, w + [q])
  {
    var v := w + [q];
    forall i | 0 <= i < |v| - 1
      ensures Next(g, v[i], v[i + 1])
    {
      if i < |w| - 1 {
        assert Next(g, w[i], w[i + 1]);
      }
    }
  }

  lemma WalkPrepend(g: Graph, p: Point, w: seq<Point>)
    requires IsWalk(g, w) && Next(g, p, w[0])
    ensures IsWalk(g, [p] + w)
  {
    var v := [p] + w;
    forall i | 0 <= i < |v| - 1
      ensures Next(g, v[i], v[i + 1])
    {
      if i > 0 {
        assert Next(g, w[i - 1], w[i - 1 + 1]);
      }
    }
  }
}
