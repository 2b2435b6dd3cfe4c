/** The liveness and loan fixed points of the LOW-tier borrow checker
    (crates/core/src/sema/borrow_check.rs). */
module BorrowCheck {
  import opened Wrappers
  import opened Cfg
  import opened PointGraph

  datatype Place = Local(name: string) | Unknown

  type LoanId = nat

  datatype Loan = Loan(id: LoanId, place: Place, boundPlace: Place, mutable: bool, issuedAt: Point, span: nat)

  /** What the fact collection hands over; `stmtReads` and `stmtDefines` say what one statement does. */
  datatype Facts = Facts(
    loans: seq<Loan>,
    killedAt: map<LoanId, seq<Point>>,
    invalidatedAt: map<LoanId, seq<Point>>,
    definedAt: map<Place, seq<Point>>,
    stmtReads: (Stmt, Place) -> bool,
    stmtDefines: Stmt -> Option<Place>)

  /** Every point the facts mention is a statement of the graph. */
  ghost predicate FactsOf(g: Graph, f: Facts) {
    && (forall l :: l in f.loans ==> IsPoint(g, l.issuedAt))
    && (forall id, p :: id in f.invalidatedAt && p in f.invalidatedAt[id] ==> IsPoint(g, p))
  }

  datatype Violation = Violation(loanSpan: nat, conflict: Stmt, place: Place, mutable: bool)

  // ---------------------------------------------------------------- the path definitions

  function Kills(f: Facts, l: Loan): set<Point> {
    (if l.id in f.killedAt then set p | p in f.killedAt[l.id] else {}) +
    (if l.boundPlace in f.definedAt then set p | p in f.definedAt[l.boundPlace] && p != l.issuedAt else {})
  }

  /** A walk that leaves its first point and passes no kill on the way to its last. */
  ghost predicate Unkilled(g: Graph, w: seq<Point>, kills: set<Point>) {
    IsWalk(g, w) && |w| > 1 && forall i :: 0 < i < |w| - 1 ==> w[i] !in kills
  }

  ghost predicate Reaches(g: Graph, from: Point, kills: set<Point>, q: Point) {
    exists w :: Unkilled(g, w, kills) && w[0] == from && WalkEnd(w) == q
  }

  ghost predicate Uses(g: Graph, f: Facts, place: Place, p: Point) {
    IsPoint(g, p) && f.stmtReads(StmtAt(g, p), place)
  }

  ghost predicate Defines(g: Graph, f: Facts, place: Place, p: Point) {
    IsPoint(g, p) && f.stmtDefines(StmtAt(g, p)) == Some(place)
  }

  /** A walk to a read of `place` that does not define it at index `start` or later before the read. */
  ghost predicate ReadWalk(g: Graph, f: Facts, place: Place, w: seq<Point>, start: nat) {
    && IsWalk(g, w) && |w| > start && Uses(g, f, place, WalkEnd(w))
    && forall i :: start <= i < |w| - 1 ==> !Defines(g, f, place, w[i])
  }

  /** `place` is read at `p` or later, before it is defined again. */
  ghost predicate LiveBefore(g: Graph, f: Facts, place: Place, p: Point) {
    exists w :: ReadWalk(g, f, place, w, 0) && w[0] == p
  }

  /** `place` is read strictly after `p`, before it is defined again. */
  ghost predicate LiveAfter(g: Graph, f: Facts, place: Place, p: Point) {
    exists w :: ReadWalk(g, f, place, w, 1) && w[0] == p
  }

  // ---------------------------------------------------------------- reaching loans

  lemma ReachesFirst(g: Graph, from: Point, kills: set<Point>, q: Point)
    requires Next(g, from, q)
    ensures Reaches(g, from, kills, q)
  {
    var w := [from, q];
    assert IsWalk(g, w) by {
      forall i | 0 <= i < |w| - 1
        ensures Next(g, w[i], w[i + 1])
      {
      }
    }
    assert Unkilled(g, w, kills) && WalkEnd(w) == q;
  }

  lemma ReachesOn(g: Graph, from: Point, kills: set<Point>, p: Point, q: Point)
    requires Reaches(g, from, kills, p) && p !in kills && Next(g, p, q)
    ensures Reaches(g, from, kills, q)
  {
    var w :| Unkilled(g, w, kills) && w[0] == from && WalkEnd(w) == p;
    WalkAppend(g, w, q);
    assert Unkilled(g, w + [q], kills) && WalkEnd(w + [q]) == q;
  }

  /** A set that holds the successors of `from` and of its own unkilled members holds all reached points. */
  lemma {:induction false} ReachesWithin(g: Graph, from: Point, kills: set<Point>, s: set<Point>, w: seq<Point>)
    requires forall q :: Next(g, from, q) ==> q in s
    requires forall p, q :: p in s && p !in kills && Next(g, p, q) ==> q in s
    requires Unkilled(g, w, kills) && w[0] == from
    ensures WalkEnd(w) in s
    decreases |w|
  {
    var p := w[|w| - 2];
    assert Next(g, w[|w| - 2], w[|w| - 2 + 1]);
    if |w| > 2 {
      var v := w[..|w| - 1];
      WalkPrefix(g, w, |w| - 1);
      assert Unkilled(g, v, kills);
      ReachesWithin(g, from, kills, s, v);
    }
  }

  lemma ReachesInside(g: Graph, from: Point, kills: set<Point>, s: set<Point>)
    requires forall q :: Next(g, from, q) ==> q in s
    requires forall p, q :: p in s && p !in kills && Next(g, p, q) ==> q in s
    ensures forall q :: Reaches(g, from, kills, q) ==> q in s
  {
    forall q | Reaches(g, from, kills, q)
      ensures q in s
    {
      var w :| Unkilled(g, w, kills) && w[0] == from && WalkEnd(w) == q;
      ReachesWithin(g, from, kills, s, w);
    }
  }

  method IsKill(f: Facts, loan: Loan) returns (kills: set<Point>)
    ensures kills == Kills(f, loan)
  {
    kills := if loan.id in f.killedAt then set p | p in f.killedAt[loan.id] else {};
    if loan.boundPlace in f.definedAt {
      kills := kills + set p | p in f.definedAt[loan.boundPlace] && p != loan.issuedAt;
    }
  }

  /** Adds the successors of `p` to the result and, when new, to the worklist. */
  method Propagate(g: Graph, p: Point, reaches: set<Point>, worklist: seq<Point>)
    returns (reaches': set<Point>, worklist': seq<Point>)
    requires Closed(g) && IsPoint(g, p)
    ensures reaches' == reaches + (set q | q in reaches' && Next(g, p, q))
    ensures forall q :: Next(g, p, q) ==> q in reaches'
    ensures worklist <= worklist'
    ensures forall q :: q in worklist' <==> q in worklist || q in reaches' - reaches
    ensures reaches' == reaches ==> worklist' == worklist
  {
    reaches', worklist' := reaches, worklist;
    var succs := SuccPoints(g, p);
    for i := 0 to |succs|
      invariant reaches <= reaches'
      invariant forall q :: q in reaches' ==> q in reaches || Next(g, p, q)
      invariant forall k :: 0 <= k < i ==> succs[k] in reaches'
      invariant worklist <= worklist'
      invariant forall q :: q in worklist' <==> q in worklist || q in reaches' - reaches
      invariant reaches' == reaches ==> worklist' == worklist
    {
      if succs[i] !in reaches' {
        reaches' := reaches' + {succs[i]};
        worklist' := worklist' + [succs[i]];
      }
    }
  }

  /** All statements of the graph, as a set. */
  ghost function PointSet(g: Graph): set<Point> {
    set b: BlockId, i: nat | 0 <= b < |g| && 0 <= i < |g[b].stmts| && IsPoint(g, Point(b, i)) :: Point(b, i)
  }

  method ComputeReachesBefore(g: Graph, loan: Loan, f: Facts) returns (reaches: set<Point>)
    requires Closed(g) && IsPoint(g, loan.issuedAt)
    ensures forall q :: q in reaches <==> Reaches(g, loan.issuedAt, Kills(f, loan), q)
  {
    var kills := IsKill(f, loan);
    hide Reaches, Kills, Closed;
    ghost var from := loan.issuedAt;
    var worklist: seq<Point>;
    reaches, worklist := Propagate(g, loan.issuedAt, {}, []);
    forall q | q in reaches
      ensures Reaches(g, from, kills, q)
    {
      ReachesFirst(g, from, kills, q);
    }
    while worklist != []
      invariant forall q :: q in worklist ==> q in reaches
      invariant forall q :: q in reaches ==> IsPoint(g, q) && Reaches(g, from, kills, q)
      invariant forall q :: Next(g, from, q) ==> q in reaches
      invariant forall p, q :: p in reaches && p !in kills && p !in worklist && Next(g, p, q) ==> q in reaches
      decreases PointSet(g) - reaches, |worklist|
    {
      var p := worklist[0];
      var rest := worklist[1..];
      assert worklist == [p] + rest;
      if p in kills {
        worklist := rest;
        continue;
      }
      ghost var before := reaches;
      reaches, worklist := Propagate(g, p, reaches, rest);
      forall q | q in reaches && q !in before
        ensures IsPoint(g, q) && Reaches(g, from, kills, q) && q in PointSet(g)
      {
        ReachesOn(g, from, kills, p, q);
      }
      if reaches != before {
        assert exists q :: q in reaches && q !in before;
      }
    }
    ReachesInside(g, from, kills, reaches);
  }

  // ---------------------------------------------------------------- liveness

  lemma LiveBeforeHere(g: Graph, f: Facts, place: Place, p: Point)
    requires Uses(g, f, place, p)
    ensures LiveBefore(g, f, place, p)
  {
    assert ReadWalk(g, f, place, [p], 0);
  }

  lemma LiveBeforeThrough(g: Graph, f: Facts, place: Place, p: Point)
    requires LiveAfter(g, f, place, p) && !Defines(g, f, place, p)
    ensures LiveBefore(g, f, place, p)
  {
    var w :| ReadWalk(g, f, place, w, 1) && w[0] == p;
    assert ReadWalk(g, f, place, w, 0);
  }

  lemma LiveAfterNext(g: Graph, f: Facts, place: Place, p: Point, q: Point)
    requires Next(g, p, q) && LiveBefore(g, f, place, q)
    ensures LiveAfter(g, f, place, p)
  {
    var w :| ReadWalk(g, f, place, w, 0) && w[0] == q;
    WalkPrepend(g, p, w);
    assert ReadWalk(g, f, place, [p] + w, 1);
  }

  type Liveness = map<Point, bool>

  ghost predicate Total(g: Graph, m: Liveness) {
    forall p :: p in m <==> IsPoint(g, p)
  }

  /** Some statement that may run right after `p` is recorded as live-before. */
  ghost predicate Backed(g: Graph, p: Point, before: Liveness) {
    exists q :: Next(g, p, q) && q in before && before[q]
  }

  /** Every recorded `true` is justified by the current state of the tables. */
  ghost predicate Justified(g: Graph, f: Facts, place: Place, before: Liveness, after: Liveness) {
    && Total(g, before) && Total(g, after)
    && (forall p {:trigger Backed(g, p, before)} :: p in after && after[p] ==> Backed(g, p, before))
    && (forall p :: p in before && before[p] ==> Uses(g, f, place, p) || (after[p] && !Defines(g, f, place, p)))
  }

  /** Every recorded `true` is a live point. */
  ghost predicate SoundTables(g: Graph, f: Facts, place: Place, before: Liveness, after: Liveness) {
    && (forall p :: p in after && after[p] ==> LiveAfter(g, f, place, p))
    && (forall p :: p in before && before[p] ==> LiveBefore(g, f, place, p))
  }

  /** The dataflow equations hold at `p`. */
  ghost predicate Stable(g: Graph, f: Facts, place: Place, before: Liveness, after: Liveness, p: Point)
  {
    && p in before && p in after
    && (after[p] <==> Backed(g, p, before))
    && (before[p] <==> Uses(g, f, place, p) || (after[p] && !Defines(g, f, place, p)))
  }

  /** The entries still false; each change of a sweep removes at least one. */
  ghost function Falses(before: Liveness, after: Liveness): (set<Point>, set<Point>) {
    (set p | p in before && !before[p], set p | p in after && !after[p])
  }

  ghost function Flips(before: Liveness, after: Liveness): nat {
    |Falses(before, after).0| + |Falses(before, after).1|
  }

  lemma FlipBefore(before: Liveness, after: Liveness, p: Point)
    requires p in before && !before[p]
    ensures Flips(before[p := true], after) < Flips(before, after)
  {
    assert Falses(before[p := true], after).0 == Falses(before, after).0 - {p};
  }

  lemma FlipAfter(before: Liveness, after: Liveness, p: Point)
    requires p in after && !after[p]
    ensures Flips(before, after[p := true]) < Flips(before, after)
  {
    assert Falses(before, after[p := true]).1 == Falses(before, after).1 - {p};
  }

  /** In stable tables, a walk to a read marks where it begins. */
  lemma {:induction false} StableIsComplete(g: Graph, f: Facts, place: Place, before: Liveness, after: Liveness,
                                            w: seq<Point>)
    requires Total(g, before) && Total(g, after)
    requires forall p :: IsPoint(g, p) ==> Stable(g, f, place, before, after, p)
    requires ReadWalk(g, f, place, w, 1) || ReadWalk(g, f, place, w, 0)
    ensures IsPoint(g, w[0])
    ensures ReadWalk(g, f, place, w, 1) ==> after[w[0]]
    ensures ReadWalk(g, f, place, w, 0) ==> before[w[0]]
    decreases |w|
  {
    if |w| > 1 {
      assert Next(g, w[0], w[0 + 1]);
      WalkSuffix(g, w, 1);
      assert ReadWalk(g, f, place, w[1..], 0);
      StableIsComplete(g, f, place, before, after, w[1..]);
      assert Stable(g, f, place, before, after, w[0]);
    } else {
      assert Stable(g, f, place, before, after, w[0]);
    }
  }

  method AnyLive(g: Graph, p: Point, before: Liveness) returns (live: bool)
    requires Closed(g) && IsPoint(g, p) && Total(g, before)
    ensures live <==> Backed(g, p, before)
  {
    var succs := SuccPoints(g, p);
    for i := 0 to |succs|
      invariant forall k :: 0 <= k < i ==> succs[k] in before && !before[succs[k]]
    {
      assert Next(g, p, succs[i]);
      if before[succs[i]] {
        return true;
      }
    }
    return false;
  }

  /** The tables of a running computation. */
  ghost predicate Tables(g: Graph, f: Facts, place: Place, before: Liveness, after: Liveness) {
    Justified(g, f, place, before, after) && SoundTables(g, f, place, before, after)
  }

  lemma SetAfter(g: Graph, f: Facts, place: Place, before: Liveness, after: Liveness, p: Point)
    requires Tables(g, f, place, before, after) && IsPoint(g, p) && !after[p]
    requires Backed(g, p, before)
    ensures Tables(g, f, place, before, after[p := true])
    ensures Flips(before, after[p := true]) < Flips(before, after)
  {
    var q :| Next(g, p, q) && q in before && before[q];
    LiveAfterNext(g, f, place, p, q);
    FlipAfter(before, after, p);
  }

  lemma JustifiedSetBefore(g: Graph, f: Facts, place: Place, before: Liveness, after: Liveness, p: Point)
    requires Justified(g, f, place, before, after) && IsPoint(g, p)
    requires Uses(g, f, place, p) || (after[p] && !Defines(g, f, place, p))
    ensures Justified(g, f, place, before[p := true], after)
  {
    forall q | q in after && after[q]
      ensures Backed(g, q, before[p := true])
    {
      assert Backed(g, q, before);
      var m :| Next(g, q, m) && m in before && before[m];
      assert before[p := true][m];
    }
  }

  lemma SetBefore(g: Graph, f: Facts, place: Place, before: Liveness, after: Liveness, p: Point)
    requires Tables(g, f, place, before, after) && IsPoint(g, p) && !before[p]
    requires Uses(g, f, place, p) || (after[p] && !Defines(g, f, place, p))
    ensures Tables(g, f, place, before[p := true], after)
    ensures Flips(before[p := true], after) < Flips(before, after)
  {
    JustifiedSetBefore(g, f, place, before, after, p);
    assert LiveBefore(g, f, place, p) by {
      if Uses(g, f, place, p) {
        LiveBeforeHere(g, f, place, p);
      } else {
        LiveBeforeThrough(g, f, place, p);
      }
    }
    FlipBefore(before, after, p);
  }

  /** One visit of the sweep: both entries of `p` are recomputed in place. */
  method Visit(g: Graph, f: Facts, place: Place, p: Point, before: Liveness, after: Liveness)
    returns (before': Liveness, after': Liveness, changed: bool)
    requires Closed(g) && IsPoint(g, p) && Tables(g, f, place, before, after)
    ensures Tables(g, f, place, before', after')
    ensures !changed ==> before' == before && after' == after && Stable(g, f, place, before, after, p)
    ensures changed ==> Flips(before', after') < Flips(before, after)
  {
    before', after', changed := before, after, false;
    var stmt := g[p.block].stmts[p.index];
    var uses := f.stmtReads(stmt, place);
    var defines := f.stmtDefines(stmt) == Some(place);
    var newAfter := AnyLive(g, p, before);
    var newBefore := uses || (newAfter && !defines);
    if newAfter != after[p] {
      SetAfter(g, f, place, before, after, p);
      after' := after[p := newAfter];
      changed := true;
    }
    if newBefore != before[p] {
      SetBefore(g, f, place, before, after', p);
      before' := before[p := newBefore];
      changed := true;
    }
  }

  ghost predicate StableFrom(g: Graph, f: Facts, place: Place, before: Liveness, after: Liveness,
                             points: seq<Point>, i: nat) {
    forall k :: i <= k < |points| ==> Stable(g, f, place, before, after, points[k])
  }

  /** All points once, last first. */
  method Sweep(g: Graph, f: Facts, place: Place, points: seq<Point>, before: Liveness, after: Liveness)
    returns (before': Liveness, after': Liveness, changed: bool)
    requires Closed(g) && Tables(g, f, place, before, after)
    requires forall p :: p in points ==> IsPoint(g, p)
    ensures Tables(g, f, place, before', after')
    ensures !changed ==> before' == before && after' == after && StableFrom(g, f, place, before, after, points, 0)
    ensures changed ==> Flips(before', after') < Flips(before, after)
  {
    before', after', changed := before, after, false;
    var i := |points|;
    while i > 0
      invariant 0 <= i <= |points|
      invariant Tables(g, f, place, before', after')
      invariant !changed ==> before' == before && after' == after
      invariant !changed ==> StableFrom(g, f, place, before, after, points, i)
      invariant changed ==> Flips(before', after') < Flips(before, after)
    {
      i := i - 1;
      var p := points[i];
      assert p in points;
      var flipped;
      before', after', flipped := Visit(g, f, place, p, before', after');
      if flipped {
        changed := true;
      }
    }
  }

  /** The tables are the path definitions. */
  ghost predicate IsLiveness(g: Graph, f: Facts, place: Place, before: Liveness, after: Liveness) {
    && Total(g, before) && Total(g, after)
    && (forall p :: p in before ==> (before[p] <==> LiveBefore(g, f, place, p)))
    && (forall p :: p in after ==> (after[p] <==> LiveAfter(g, f, place, p)))
  }

  /** The fixed point is reached after at most one sweep per table entry and one more to see it. */
  method ComputeLiveness(g: Graph, f: Facts, place: Place)
    returns (before: Liveness, after: Liveness, ghost sweeps: nat)
    requires Closed(g)
    ensures IsLiveness(g, f, place, before, after)
    ensures sweeps <= 2 * |PointSet(g)| + 1
  {
    var points := AllPoints(g);
    before := map p | p in points :: false;
    after := map p | p in points :: false;
    sweeps := 0;
    FlipsBound(g, before, after);
    var changed := true;
    while changed
      invariant Tables(g, f, place, before, after)
      invariant !changed ==> StableFrom(g, f, place, before, after, points, 0)
      invariant sweeps + Flips(before, after) <= 2 * |PointSet(g)| + (if changed then 0 else 1)
      decreases Flips(before, after), changed
    {
      before, after, changed := Sweep(g, f, place, points, before, after);
      sweeps := sweeps + 1;
    }
    forall p | IsPoint(g, p)
      ensures Stable(g, f, place, before, after, p)
    {
      assert p in points;
    }
    forall p | IsPoint(g, p)
      ensures LiveBefore(g, f, place, p) ==> before[p]
      ensures LiveAfter(g, f, place, p) ==> after[p]
    {
      TablesComplete(g, f, place, before, after, p);
    }
  }

  lemma TablesComplete(g: Graph, f: Facts, place: Place, before: Liveness, after: Liveness, p: Point)
    requires Total(g, before) && Total(g, after) && IsPoint(g, p)
    requires forall q :: IsPoint(g, q) ==> Stable(g, f, place, before, after, q)
    ensures LiveBefore(g, f, place, p) ==> before[p]
    ensures LiveAfter(g, f, place, p) ==> after[p]
  {
    if LiveBefore(g, f, place, p) {
      var w :| ReadWalk(g, f, place, w, 0) && w[0] == p;
      StableIsComplete(g, f, place, before, after, w);
    }
    if LiveAfter(g, f, place, p) {
      var w :| ReadWalk(g, f, place, w, 1) && w[0] == p;
      StableIsComplete(g, f, place, before, after, w);
    }
  }

  lemma FlipsBound(g: Graph, before: Liveness, after: Liveness)
    requires Total(g, before) && Total(g, after)
    ensures Flips(before, after) <= 2 * |PointSet(g)|
  {
    SubsetSize(Falses(before, after).0, PointSet(g));
    SubsetSize(Falses(before, after).1, PointSet(g));
  }

  lemma {:induction false} SubsetSize<T>(a: set<T>, b: set<T>)
    requires a <= b
    ensures |a| <= |b|
  {
    if x :| x in a {
      SubsetSize(a - {x}, b - {x});
    }
  }

  // ---------------------------------------------------------------- the verdict

  /** The loan is live where `q` would invalidate it: it has not been killed on some way to `q`, and
      its carrier is read again after `q`. */
  ghost predicate IsViolation(g: Graph, f: Facts, l: Loan, q: Point) {
    && l.mutable && l.boundPlace != Unknown
    && Reaches(g, l.issuedAt, Kills(f, l), q)
    && LiveAfter(g, f, l.boundPlace, q)
  }

  ghost function LoanViolations(g: Graph, f: Facts, l: Loan, candidates: seq<Point>): seq<Violation>
    requires forall p :: p in candidates ==> IsPoint(g, p)
  {
    if candidates == [] then []
    else
      var q := candidates[|candidates| - 1];
      LoanViolations(g, f, l, candidates[..|candidates| - 1]) +
      if IsViolation(g, f, l, q) then [Violation(l.span, StmtAt(g, q), l.place, l.mutable)] else []
  }

  function Candidates(f: Facts, l: Loan): seq<Point> {
    if l.id in f.invalidatedAt then f.invalidatedAt[l.id] else []
  }

  /** The violations of all loans, in the order of the loans and of their candidates. */
  ghost function Violations(g: Graph, f: Facts, loans: seq<Loan>): seq<Violation>
    requires forall id, p :: id in f.invalidatedAt && p in f.invalidatedAt[id] ==> IsPoint(g, p)
  {
    if loans == [] then []
    else
      var l := loans[|loans| - 1];
      Violations(g, f, loans[..|loans| - 1]) + LoanViolations(g, f, l, Candidates(f, l))
  }

  // ---------------------------------------------------------------- the verdict, entry by entry

  /** Where a loan can be violated: the loan's number, and a number in its list of invalidation points. */
  datatype Spot = Spot(loan: nat, k: nat)

  predicate IsSpot(f: Facts, loans: seq<Loan>, s: Spot) {
    s.loan < |loans| && loans[s.loan].id in f.invalidatedAt && s.k < |f.invalidatedAt[loans[s.loan].id]|
  }

  function PointOf(f: Facts, loans: seq<Loan>, s: Spot): Point
    requires IsSpot(f, loans, s)
  {
    f.invalidatedAt[loans[s.loan].id][s.k]
  }

  predicate SpotBefore(s: Spot, t: Spot) {
    s.loan < t.loan || (s.loan == t.loan && s.k < t.k)
  }

  /** What is reported of a spot: the loan's span, place and kind, and the statement at the point. */
  ghost predicate Tells(g: Graph, f: Facts, loans: seq<Loan>, s: Spot, v: Violation)
    requires IsSpot(f, loans, s)
  {
    var l, q := loans[s.loan], PointOf(f, loans, s);
    IsPoint(g, q) && v.loanSpan == l.span && v.place == l.place && v.mutable == l.mutable && v.conflict == StmtAt(g, q)
  }

  ghost predicate Violated(g: Graph, f: Facts, loans: seq<Loan>, s: Spot) {
    IsSpot(f, loans, s) && IsViolation(g, f, loans[s.loan], PointOf(f, loans, s))
  }

  /** `spots` are exactly the violated ones, in order, and each of them has its entry in `violations`. */
  ghost predicate Lists(g: Graph, f: Facts, loans: seq<Loan>, violations: seq<Violation>, spots: seq<Spot>) {
    && |spots| == |violations|
    && (forall n :: 0 <= n < |spots| ==> Violated(g, f, loans, spots[n]) && Tells(g, f, loans, spots[n], violations[n]))
    && (forall m, n :: 0 <= m < n < |spots| ==> SpotBefore(spots[m], spots[n]))
    && forall s :: Violated(g, f, loans, s) ==> s in spots
  }

  /** The report has one entry for each loan and each of its invalidation points at which the loan is violated, in the
      order of the loans and of their points, and no other entry. */
  ghost predicate ReportsExactly(g: Graph, f: Facts, violations: seq<Violation>) {
    exists spots :: Lists(g, f, f.loans, violations, spots)
  }

  /** The spots of one loan: its first `n` invalidation points have been looked at. */
  ghost predicate ListsOf(g: Graph, f: Facts, loans: seq<Loan>, i: nat, n: nat, violations: seq<Violation>, ks: seq<nat>) {
    && i < |loans| && |ks| == |violations|
    && (forall m :: 0 <= m < |ks| ==> ks[m] < n && Violated(g, f, loans, Spot(i, ks[m])) && Tells(g, f, loans, Spot(i, ks[m]), violations[m]))
    && (forall m, m' :: 0 <= m < m' < |ks| ==> ks[m] < ks[m'])
    && forall k: nat :: k < n && Violated(g, f, loans, Spot(i, k)) ==> k in ks
  }

  lemma {:induction false} LoanLists(g: Graph, f: Facts, loans: seq<Loan>, i: nat, n: nat) returns (ks: seq<nat>)
    requires FactsOf(g, f) && i < |loans| && loans[i].id in f.invalidatedAt && n <= |f.invalidatedAt[loans[i].id]|
    ensures ListsOf(g, f, loans, i, n, LoanViolations(g, f, loans[i], f.invalidatedAt[loans[i].id][..n]), ks)
  {
    hide ListsOf, IsViolation, FactsOf;
    var l := loans[i];
    var points := f.invalidatedAt[l.id];
    FactPoints(g, f, l.id);
    if n == 0 {
      ks := [];
      assert points[..0] == [];
      NoSpots(g, f, loans, i);
    } else {
      var before := LoanLists(g, f, loans, i, n - 1);
      assert points[..n][..n - 1] == points[..n - 1] && points[..n][n - 1] == points[n - 1];
      assert points[n - 1] in points;
      var vs, q := LoanViolations(g, f, l, points[..n - 1]), points[n - 1];
      ks := if IsViolation(g, f, l, q) then before + [n - 1] else before;
      NextSpot(g, f, loans, i, n - 1, vs, before);
      assert LoanViolations(g, f, l, points[..n]) ==
             vs + if IsViolation(g, f, l, q) then [Violation(l.span, StmtAt(g, q), l.place, l.mutable)] else [];
      assert vs + [] == vs;
    }
  }

  lemma FactPoints(g: Graph, f: Facts, id: LoanId)
    requires FactsOf(g, f) && id in f.invalidatedAt
    ensures forall p :: p in f.invalidatedAt[id] ==> IsPoint(g, p)
  {
  }

  lemma NoSpots(g: Graph, f: Facts, loans: seq<Loan>, i: nat)
    requires i < |loans|
    ensures ListsOf(g, f, loans, i, 0, [], [])
  {
  }

  lemma NextSpot(g: Graph, f: Facts, loans: seq<Loan>, i: nat, n: nat, vs: seq<Violation>, ks: seq<nat>)
    requires i < |loans| && loans[i].id in f.invalidatedAt && n < |f.invalidatedAt[loans[i].id]| && ListsOf(g, f, loans, i, n, vs, ks)
    requires IsPoint(g, f.invalidatedAt[loans[i].id][n])
    ensures var l, q := loans[i], f.invalidatedAt[loans[i].id][n];
            if IsViolation(g, f, l, q)
            then ListsOf(g, f, loans, i, n + 1, vs + [Violation(l.span, StmtAt(g, q), l.place, l.mutable)], ks + [n])
            else ListsOf(g, f, loans, i, n + 1, vs, ks)
  {
    hide IsViolation;
    var l, q := loans[i], f.invalidatedAt[loans[i].id][n];
    assert Violated(g, f, loans, Spot(i, n)) <==> IsViolation(g, f, l, q);
    assert Tells(g, f, loans, Spot(i, n), Violation(l.span, StmtAt(g, q), l.place, l.mutable));
    hide Violated, Tells;
  }

  /** The spots do not depend on the loans after them. */
  lemma SpotFront(g: Graph, f: Facts, loans: seq<Loan>, n: nat, s: Spot)
    requires n <= |loans| && s.loan < n
    ensures IsSpot(f, loans[..n], s) <==> IsSpot(f, loans, s)
    ensures Violated(g, f, loans[..n], s) <==> Violated(g, f, loans, s)
    ensures IsSpot(f, loans, s) ==> forall v :: Tells(g, f, loans[..n], s, v) <==> Tells(g, f, loans, s, v)
  {
    hide IsViolation;
  }

  lemma {:induction false} AllLists(g: Graph, f: Facts, loans: seq<Loan>) returns (spots: seq<Spot>)
    requires FactsOf(g, f)
    ensures Lists(g, f, loans, Violations(g, f, loans), spots)
    decreases |loans|
  {
    if loans == [] {
      spots := [];
    } else {
      var n := |loans| - 1;
      var front := AllLists(g, f, loans[..n]);
      var l := loans[n];
      var ks: seq<nat> := [];
      if l.id in f.invalidatedAt {
        var points := f.invalidatedAt[l.id];
        ks := LoanLists(g, f, loans, n, |points|);
        assert points[..|points|] == points;
      }
      spots := front + seq(|ks|, j requires 0 <= j < |ks| => Spot(n, ks[j]));
      JoinLists(g, f, loans, front, Violations(g, f, loans[..n]), ks, LoanViolations(g, f, l, Candidates(f, l)), spots);
    }
  }

  lemma JoinLists(g: Graph, f: Facts, loans: seq<Loan>, front: seq<Spot>, vs: seq<Violation>, ks: seq<nat>, more: seq<Violation>, spots: seq<Spot>)
    requires loans != [] && Lists(g, f, loans[..|loans| - 1], vs, front)
    requires var n := |loans| - 1;
             if loans[n].id in f.invalidatedAt then ListsOf(g, f, loans, n, |f.invalidatedAt[loans[n].id]|, more, ks) else ks == [] && more == []
    requires |spots| == |front| + |ks| && spots[..|front|] == front
    requires forall j :: 0 <= j < |ks| ==> spots[|front| + j] == Spot(|loans| - 1, ks[j])
    ensures Lists(g, f, loans, vs + more, spots)
  {
    hide IsViolation, Tells, IsSpot, Violated;
    var n, all := |loans| - 1, vs + more;
    forall m | 0 <= m < |spots|
      ensures Violated(g, f, loans, spots[m]) && IsSpot(f, loans, spots[m]) && Tells(g, f, loans, spots[m], all[m])
    {
      if m < |front| {
        assert spots[m] == front[m];
        SpotInside(g, f, loans[..n], front[m]);
        SpotFront(g, f, loans, n, front[m]);
      } else {
        assert spots[m] == spots[|front| + (m - |front|)] == Spot(n, ks[m - |front|]);
        SpotInside(g, f, loans, spots[m]);
      }
    }
    forall m, m' | 0 <= m < m' < |spots|
      ensures SpotBefore(spots[m], spots[m'])
    {
      SpotOrder(g, f, loans, front, vs, ks, spots, m, m');
    }
    forall s | Violated(g, f, loans, s)
      ensures s in spots
    {
      SpotListed(g, f, loans, front, vs, ks, more, spots, s);
    }
  }

  lemma SpotInside(g: Graph, f: Facts, loans: seq<Loan>, s: Spot)
    requires Violated(g, f, loans, s)
    ensures IsSpot(f, loans, s) && s.loan < |loans|
  {
    hide IsViolation;
  }

  lemma SpotOrder(g: Graph, f: Facts, loans: seq<Loan>, front: seq<Spot>, vs: seq<Violation>, ks: seq<nat>, spots: seq<Spot>, m: nat, m': nat)
    requires loans != [] && Lists(g, f, loans[..|loans| - 1], vs, front) && m < m' < |spots|
    requires forall j, j' :: 0 <= j < j' < |ks| ==> ks[j] < ks[j']
    requires |spots| == |front| + |ks| && spots[..|front|] == front
    requires forall j :: 0 <= j < |ks| ==> spots[|front| + j] == Spot(|loans| - 1, ks[j])
    ensures SpotBefore(spots[m], spots[m'])
  {
    hide IsViolation, Tells, Violated;
    var n := |front|;
    if m' < n {
      assert spots[m] == front[m] && spots[m'] == front[m'];
    } else if m < n {
      assert spots[m] == front[m];
      SpotInside(g, f, loans[..|loans| - 1], front[m]);
      assert spots[|front| + (m' - n)] == Spot(|loans| - 1, ks[m' - n]);
    } else {
      assert spots[|front| + (m - n)] == Spot(|loans| - 1, ks[m - n]);
      assert spots[|front| + (m' - n)] == Spot(|loans| - 1, ks[m' - n]);
      assert ks[m - n] < ks[m' - n];
    }
  }

  lemma SpotListed(g: Graph, f: Facts, loans: seq<Loan>, front: seq<Spot>, vs: seq<Violation>, ks: seq<nat>, more: seq<Violation>,
                   spots: seq<Spot>, s: Spot)
    requires loans != [] && Lists(g, f, loans[..|loans| - 1], vs, front) && Violated(g, f, loans, s)
    requires var n := |loans| - 1;
             if loans[n].id in f.invalidatedAt then ListsOf(g, f, loans, n, |f.invalidatedAt[loans[n].id]|, more, ks) else ks == [] && more == []
    requires |spots| == |front| + |ks| && spots[..|front|] == front
    requires forall j :: 0 <= j < |ks| ==> spots[|front| + j] == Spot(|loans| - 1, ks[j])
    ensures s in spots
  {
    hide IsViolation, Tells;
    var n := |loans| - 1;
    if s.loan < n {
      SpotFront(g, f, loans, n, s);
      assert s in front && s in spots[..|front|];
    } else {
      assert s == Spot(n, s.k) && s.k in ks;
      var j :| 0 <= j < |ks| && ks[j] == s.k;
      assert spots[|front| + j] == s;
    }
  }

  type Cache = map<Place, Liveness>

  /** Cached tables are the liveness of their place. */
  ghost predicate CacheBefore(g: Graph, f: Facts, cache: Cache) {
    forall place :: place in cache ==> TableBefore(g, f, place, cache[place])
  }

  ghost predicate CacheAfter(g: Graph, f: Facts, cache: Cache) {
    forall place :: place in cache ==> TableAfter(g, f, place, cache[place])
  }

  ghost predicate TableBefore(g: Graph, f: Facts, place: Place, table: Liveness) {
    Total(g, table) && forall p :: p in table ==> (table[p] <==> LiveBefore(g, f, place, p))
  }

  ghost predicate TableAfter(g: Graph, f: Facts, place: Place, table: Liveness) {
    Total(g, table) && forall p :: p in table ==> (table[p] <==> LiveAfter(g, f, place, p))
  }

  method CachedAfter(g: Graph, f: Facts, place: Place, cache: Cache) returns (table: Liveness, cache': Cache)
    requires Closed(g) && CacheAfter(g, f, cache)
    ensures TableAfter(g, f, place, table) && CacheAfter(g, f, cache')
  {
    cache' := cache;
    if place !in cache {
      var before, after, _ := ComputeLiveness(g, f, place);
      cache' := cache[place := after];
    }
    return cache'[place], cache';
  }

  method CachedBefore(g: Graph, f: Facts, place: Place, cache: Cache) returns (table: Liveness, cache': Cache)
    requires Closed(g) && CacheBefore(g, f, cache)
    ensures TableBefore(g, f, place, table) && CacheBefore(g, f, cache')
  {
    cache' := cache;
    if place !in cache {
      var before, after, _ := ComputeLiveness(g, f, place);
      cache' := cache[place := before];
    }
    return cache'[place], cache';
  }

  lemma {:induction false} NoViolations(g: Graph, f: Facts, l: Loan, candidates: seq<Point>)
    requires forall p :: p in candidates ==> IsPoint(g, p)
    requires forall p :: p in candidates ==> !IsViolation(g, f, l, p)
    ensures LoanViolations(g, f, l, candidates) == []
  {
    if candidates != [] {
      assert candidates[|candidates| - 1] in candidates;
      NoViolations(g, f, l, candidates[..|candidates| - 1]);
    }
  }

  method Check(g: Graph, f: Facts) returns (violations: seq<Violation>)
    requires Closed(g) && FactsOf(g, f)
    ensures violations == Violations(g, f, f.loans)
    ensures ReportsExactly(g, f, violations)
  {
    violations := [];
    var cache: Cache := map[];
    for i := 0 to |f.loans|
      invariant CacheAfter(g, f, cache)
      invariant violations == Violations(g, f, f.loans[..i])
    {
      var l := f.loans[i];
      assert l in f.loans && f.loans[..i + 1][..i] == f.loans[..i];
      var found;
      found, cache := CheckLoan(g, f, l, cache);
      violations := violations + found;
    }
    assert f.loans[..|f.loans|] == f.loans;
    hide Violations, Lists;
    ghost var spots := AllLists(g, f, f.loans);
  }

  method CheckLoan(g: Graph, f: Facts, l: Loan, cache: Cache) returns (found: seq<Violation>, cache': Cache)
    requires Closed(g) && FactsOf(g, f) && l in f.loans && CacheAfter(g, f, cache)
    ensures found == LoanViolations(g, f, l, Candidates(f, l)) && CacheAfter(g, f, cache')
  {
    found, cache' := [], cache;
    var candidates := Candidates(f, l);
    if !l.mutable || l.boundPlace == Unknown || candidates == [] {
      NoViolations(g, f, l, candidates);
      return;
    }
    var reaches := ComputeReachesBefore(g, l, f);
    if reaches == {} {
      NoViolations(g, f, l, candidates);
      return;
    }
    var liveAfter;
    liveAfter, cache' := CachedAfter(g, f, l.boundPlace, cache);
    found := LiveCandidates(g, f, l, candidates, reaches, liveAfter);
  }

  /** The candidates that are reached and after which the carrier is live. */
  method LiveCandidates(g: Graph, f: Facts, l: Loan, candidates: seq<Point>, reaches: set<Point>, liveAfter: Liveness)
    returns (found: seq<Violation>)
    requires forall p :: p in candidates ==> IsPoint(g, p)
    requires l.mutable && l.boundPlace != Unknown
    requires forall q :: q in reaches <==> Reaches(g, l.issuedAt, Kills(f, l), q)
    requires TableAfter(g, f, l.boundPlace, liveAfter)
    ensures found == LoanViolations(g, f, l, candidates)
  {
    found := [];
    for i := 0 to |candidates|
      invariant found == LoanViolations(g, f, l, candidates[..i])
    {
      var point := candidates[i];
      assert candidates[..i + 1][..i] == candidates[..i];
      assert point in candidates;
      if point in reaches && point in liveAfter && liveAfter[point] {
        found := found + [Violation(l.span, g[point.block].stmts[point.index], l.place, l.mutable)];
      }
    }
    assert candidates[..|candidates|] == candidates;
  }

  // ---------------------------------------------------------------- loan regions

  /** The points at which the loan is in force and its carrier is still going to be read. */
  ghost predicate InRegion(g: Graph, f: Facts, l: Loan, q: Point) {
    && l.boundPlace != Unknown
    && Reaches(g, l.issuedAt, Kills(f, l), q)
    && LiveBefore(g, f, l.boundPlace, q)
  }

  /** `regions` holds exactly the non-empty regions of `loans`; with repeated ids the last one counts. */
  ghost predicate RegionsOf(g: Graph, f: Facts, loans: seq<Loan>, regions: map<LoanId, set<Point>>) {
    forall l :: l in loans ==>
      && (forall q :: l.id in regions && q in regions[l.id] <==> InRegion(g, f, l, q))
      && (l.id in regions ==> regions[l.id] != {})
  }

  method ComputeLoanRegions(g: Graph, f: Facts) returns (regions: map<LoanId, set<Point>>)
    requires Closed(g) && FactsOf(g, f)
    requires forall i, j :: 0 <= i < j < |f.loans| ==> f.loans[i].id != f.loans[j].id
    ensures regions.Keys <= set l | l in f.loans :: l.id
    ensures RegionsOf(g, f, f.loans, regions)
  {
    regions := map[];
    var cache: Cache := map[];
    for i := 0 to |f.loans|
      invariant CacheBefore(g, f, cache)
      invariant regions.Keys <= set l | l in f.loans[..i] :: l.id
      invariant RegionsOf(g, f, f.loans[..i], regions)
    {
      var l := f.loans[i];
      assert f.loans[..i + 1] == f.loans[..i] + [l];
      var region;
      region, cache := LoanRegion(g, f, l, cache);
      AddRegion(g, f, f.loans[..i], l, regions, region);
      if region != {} {
        regions := regions[l.id := region];
      }
    }
    assert f.loans[..|f.loans|] == f.loans;
  }

  lemma AddRegion(g: Graph, f: Facts, loans: seq<Loan>, l: Loan, regions: map<LoanId, set<Point>>, region: set<Point>)
    requires RegionsOf(g, f, loans, regions) && regions.Keys <= set k | k in loans :: k.id
    requires forall k :: k in loans ==> k.id != l.id
    requires forall q :: q in region <==> InRegion(g, f, l, q)
    ensures RegionsOf(g, f, loans + [l], if region != {} then regions[l.id := region] else regions)
  {
  }

  method LoanRegion(g: Graph, f: Facts, l: Loan, cache: Cache) returns (region: set<Point>, cache': Cache)
    requires Closed(g) && FactsOf(g, f) && l in f.loans && CacheBefore(g, f, cache)
    ensures forall q :: q in region <==> InRegion(g, f, l, q)
    ensures CacheBefore(g, f, cache')
  {
    region, cache' := {}, cache;
    if l.boundPlace == Unknown {
      return;
    }
    var reaches := ComputeReachesBefore(g, l, f);
    if reaches == {} {
      return;
    }
    var liveBefore;
    liveBefore, cache' := CachedBefore(g, f, l.boundPlace, cache);
    region := set p | p in reaches && p in liveBefore && liveBefore[p];
    forall q | InRegion(g, f, l, q)
      ensures q in region
    {
      ReachedIsPoint(g, l.issuedAt, Kills(f, l), q);
    }
  }

  lemma ReachedIsPoint(g: Graph, from: Point, kills: set<Point>, q: Point)
    requires Reaches(g, from, kills, q)
    ensures IsPoint(g, q)
  {
    var w :| Unkilled(g, w, kills) && w[0] == from && WalkEnd(w) == q;
    WalkPoints(g, w);
  }

  /** A violation lies in the region of its loan, unless the conflicting statement rebinds the carrier. */
  lemma ViolationInRegion(g: Graph, f: Facts, l: Loan, q: Point)
    requires IsViolation(g, f, l, q) && !Defines(g, f, l.boundPlace, q)
    ensures InRegion(g, f, l, q)
  {
    LiveBeforeThrough(g, f, l.boundPlace, q);
  }
}
