/** Well-formedness of `[lifetime L where L outlives M]` declarations
    (crates/core/src/sema/lifetime_check.rs). */
module LifetimeCheck {
  import opened Wrappers

  datatype Name = Name(text: string)

  datatype Span = Span(start: nat, end: nat)

  /** `longer outlives shorter`, written at `span`. */
  datatype Edge = Edge(longer: Name, shorter: Name, span: Span)

  datatype LifetimeParam = LifetimeParam(name: Name, constraint: Option<Edge>, span: Span)

  datatype LifetimeError =
    | DuplicateLifetimeParam(name: Name, firstSpan: Span, dupSpan: Span)
    | UndeclaredLifetime(name: Name, span: Span)
    | OutlivesCycle(names: seq<Name>, span: Span)

  class ErrorManager {
    var errors: seq<LifetimeError>

    constructor ()
      ensures errors == []
    {
      errors := [];
    }

    method AddLifetimeError(e: LifetimeError)
      modifies this
      ensures errors == old(errors) + [e]
    {
      errors := errors + [e];
    }
  }

  // ---------------------------------------------------------------- the outlives graph

  ghost predicate HasEdge(edges: seq<Edge>, a: Name, b: Name) {
    exists e :: e in edges && e.longer == a && e.shorter == b
  }

  /** Consecutive names are related by a declared `outlives`. */
  ghost predicate IsWalk(edges: seq<Edge>, w: seq<Name>) {
    |w| > 0 && forall i :: 0 <= i < |w| - 1 ==> HasEdge(edges, w[i], w[i + 1])
  }

  ghost predicate NoRepeats(w: seq<Name>) {
    forall i, j :: 0 <= i < j < |w| ==> w[i] != w[j]
  }

  /** No walk of at least one step returns to where it began; a self-edge is such a walk. */
  ghost predicate Acyclic(edges: seq<Edge>) {
    forall w :: IsWalk(edges, w) && |w| >= 2 ==> w[0] != w[|w| - 1]
  }

  /** No walk that begins at one of `names` meets a name twice. */
  ghost predicate LoopFreeFrom(names: set<Name>, edges: seq<Edge>) {
    forall w :: IsWalk(edges, w) && w[0] in names ==> NoRepeats(w)
  }

  /** `cycle` is a simple cycle, closed by an edge declared at `span`. */
  ghost predicate IsCycle(edges: seq<Edge>, cycle: seq<Name>, span: Span) {
    && IsWalk(edges, cycle)
    && NoRepeats(cycle)
    && Edge(cycle[|cycle| - 1], cycle[0], span) in edges
  }

  /** Every edge out of an entry of `order` goes to an earlier entry. */
  ghost predicate Descending(edges: seq<Edge>, order: seq<Name>) {
    forall e, i :: e in edges && 0 <= i < |order| && order[i] == e.longer ==> e.shorter in order[..i]
  }

  lemma {:induction false} DescendingWalks(edges: seq<Edge>, order: seq<Name>, w: seq<Name>, i: nat)
    requires Descending(edges, order) && IsWalk(edges, w)
    requires i < |order| && w[0] == order[i]
    ensures forall k :: 1 <= k < |w| ==> w[k] in order[..i]
    decreases |w|
  {
    if |w| > 1 {
      assert HasEdge(edges, w[0], w[0 + 1]);
      assert w[1] in order[..i];
      var j :| 0 <= j < i && order[j] == w[1];
      WalkTail(edges, w);
      DescendingWalks(edges, order, w[1..], j);
      forall k | 1 <= k < |w|
        ensures w[k] in order[..i]
      {
        if k > 1 {
          assert w[k] == w[1..][k - 1];
        }
      }
    }
  }

  lemma WalkTail(edges: seq<Edge>, w: seq<Name>)
    requires IsWalk(edges, w) && |w| > 1
    ensures IsWalk(edges, w[1..])
  {
    forall i | 0 <= i < |w[1..]| - 1
      ensures HasEdge(edges, w[1..][i], w[1..][i + 1])
    {
      assert HasEdge(edges, w[i + 1], w[i + 1 + 1]);
    }
  }

  /** A finishing order in which all edges descend rules out repeated names on a walk. */
  lemma {:induction false} DescendingNoRepeats(edges: seq<Edge>, order: seq<Name>, w: seq<Name>)
    requires Descending(edges, order) && NoRepeats(order)
    requires IsWalk(edges, w) && w[0] in order
    ensures NoRepeats(w)
    decreases |w|
  {
    if |w| > 1 {
      var i :| 0 <= i < |order| && order[i] == w[0];
      DescendingWalks(edges, order, w, i);
      WalkTail(edges, w);
      DescendingNoRepeats(edges, order, w[1..]);
      forall a, b | 0 <= a < b < |w|
        ensures w[a] != w[b]
      {
        if a == 0 {
          assert w[b] in order[..i];
        } else {
          assert w[a] == w[1..][a - 1] && w[b] == w[1..][b - 1];
        }
      }
    }
  }

  lemma WalkPart(edges: seq<Edge>, w: seq<Name>, a: nat, b: nat)
    requires IsWalk(edges, w) && a < b < |w|
    ensures IsWalk(edges, w[a..b + 1])
  {
    hide HasEdge;
    var part := w[a..b + 1];
    forall i | 0 <= i < |part| - 1
      ensures HasEdge(edges, part[i], part[i + 1])
    {
      assert HasEdge(edges, w[a + i], w[a + i + 1]);
    }
  }

  lemma AcyclicNoRepeats(edges: seq<Edge>, w: seq<Name>)
    requires Acyclic(edges) && IsWalk(edges, w)
    ensures NoRepeats(w)
  {
    forall a, b | 0 <= a < b < |w|
      ensures w[a] != w[b]
    {
      WalkPart(edges, w, a, b);
      hide IsWalk;
      var part := w[a..b + 1];
      assert part[0] == w[a] && part[|part| - 1] == w[b];
    }
  }

  /** When every edge starts at one of `names`, loop freedom from `names` is acyclicity. */
  lemma LoopFreeIsAcyclic(names: set<Name>, edges: seq<Edge>)
    requires forall e :: e in edges ==> e.longer in names
    ensures LoopFreeFrom(names, edges) <==> Acyclic(edges)
  {
    if LoopFreeFrom(names, edges) {
      forall w | IsWalk(edges, w) && |w| >= 2
        ensures w[0] != w[|w| - 1]
      {
        assert HasEdge(edges, w[0], w[0 + 1]);
      }
    }
    if Acyclic(edges) {
      forall w | IsWalk(edges, w) && w[0] in names
        ensures NoRepeats(w)
      {
        AcyclicNoRepeats(edges, w);
      }
    }
  }

  // ---------------------------------------------------------------- the depth-first search

  type Adjacency = map<Name, seq<(Name, Span)>>

  /** The adjacency table lists exactly the declared edges. */
  ghost predicate Represents(adj: Adjacency, edges: seq<Edge>) {
    && (forall n, k :: n in adj && 0 <= k < |adj[n]| ==> Edge(n, adj[n][k].0, adj[n][k].1) in edges)
    && (forall e :: e in edges ==> e.longer in adj && (e.shorter, e.span) in adj[e.longer])
  }

  method BuildAdjacency(edges: seq<Edge>) returns (adj: Adjacency)
    ensures Represents(adj, edges)
  {
    adj := map[];
    for i := 0 to |edges|
      invariant Represents(adj, edges[..i])
    {
      var Edge(from, to, span) := edges[i];
      var prev := if from in adj then adj[from] else [];
      adj := adj[from := prev + [(to, span)]];
      assert edges[..i + 1] == edges[..i] + [edges[i]];
      forall e | e in edges[..i + 1]
        ensures e.longer in adj && (e.shorter, e.span) in adj[e.longer]
      {
        assert (to, span) == adj[from][|prev|];
        if e in edges[..i] && e.longer == from {
          var k :| 0 <= k < |prev| && prev[k] == (e.shorter, e.span);
          assert adj[from][k] == prev[k];
        }
      }
    }
    assert edges[..|edges|] == edges;
  }

  /** The mutable state of one `find_outlives_cycle` call. `finished` is the order in which nodes left
      the path, and `nodes` bounds the search. */
  class CycleSearch {
    const adj: Adjacency
    var path: seq<Name>
    var onPath: set<Name>
    var visited: set<Name>
    ghost const edges: seq<Edge>
    ghost const nodes: set<Name>
    ghost var finished: seq<Name>

    ghost predicate Valid()
      reads this
    {
      && Represents(adj, edges)
      && (forall e :: e in edges ==> e.shorter in nodes)
      && NoRepeats(path)
      && onPath == (set n | n in path)
      && NoRepeats(finished)
      && (forall n :: n in visited <==> n in onPath || n in finished)
      && (forall n :: n in finished ==> n !in onPath)
      && Descending(edges, finished)
      && (|path| > 0 ==> IsWalk(edges, path))
    }

    constructor (adj: Adjacency, ghost names: set<Name>, ghost edges: seq<Edge>)
      requires Represents(adj, edges)
      ensures Valid() && this.adj == adj && this.edges == edges
      ensures path == [] && visited == {} && finished == []
      ensures names <= nodes
    {
      this.adj := adj;
      path, onPath, visited := [], {}, {};
      this.edges := edges;
      nodes := names + set e | e in edges :: e.shorter;
      finished := [];
    }

    /** Puts `node` at the end of the current path. */
    method Enter(node: Name)
      requires Valid() && node !in visited && IsWalk(edges, path + [node])
      modifies this
      ensures Valid() && path == old(path) + [node] && onPath == old(onPath) + {node}
      ensures visited == old(visited) + {node} && finished == old(finished)
    {
      path := path + [node];
      onPath := onPath + {node};
      visited := visited + {node};
    }

    /** Takes the last name off the path once all its neighbours have been left. */
    method Leave(node: Name)
      requires Valid() && |path| > 0 && path[|path| - 1] == node
      requires forall e :: e in edges && e.longer == node ==> e.shorter in finished
      modifies this
      ensures Valid() && path == old(path)[..|old(path)| - 1] && onPath == old(onPath) - {node}
      ensures visited == old(visited) && finished == old(finished) + [node]
    {
      var before := path[..|path| - 1];
      assert path == before + [node];
      assert |before| > 0 ==> IsWalk(edges, before) by {
        forall i | 0 <= i < |before| - 1
          ensures HasEdge(edges, before[i], before[i + 1])
        {
          assert HasEdge(edges, path[i], path[i + 1]);
        }
      }
      path := before;
      onPath := onPath - {node};
      PopFinished(edges, finished, node);
      finished := finished + [node];
    }

    /** The part of the path from `next` on, when the last name outlives `next`. */
    method CloseCycle(next: Name, span: Span) returns (cycle: seq<Name>)
      requires Valid() && |path| > 0 && next in onPath && Edge(path[|path| - 1], next, span) in edges
      ensures IsCycle(edges, cycle, span) && RevisitingWalk(path[0])
    {
      var startIdx := Position(path, next);
      CycleFromPath(edges, path, startIdx, span);
      ExtendWalk(edges, path, next, span);
      ghost var longer := path + [next];
      assert longer[startIdx] == longer[|path|];
      assert longer[0] == path[0];
      return path[startIdx..];
    }

    method Dfs(node: Name) returns (found: Option<(seq<Name>, Span)>)
      requires Valid() && node in nodes && node !in visited
      requires IsWalk(edges, path + [node])
      modifies this
      ensures found.Some? ==> IsCycle(edges, found.value.0, found.value.1)
      ensures found.Some? ==> RevisitingWalk((old(path) + [node])[0])
      ensures found.None? ==> Valid() && path == old(path) && onPath == old(onPath)
      ensures found.None? ==> node in finished && old(visited) <= visited
      ensures found.None? ==> forall n :: n in old(finished) ==> n in finished
      decreases nodes - visited
    {
      hide Valid, IsWalk, NoRepeats, Descending, IsCycle, Represents, RevisitingWalk;
      ghost var before, onBefore := path, onPath;
      Unvisited(node);
      Enter(node);
      var neighbors := if node in adj then adj[node] else [];
      for i := 0 to |neighbors|
        invariant Valid() && path == before + [node] && onPath == onBefore + {node}
        invariant visited >= old(visited) + {node}
        invariant forall n :: n in old(finished) ==> n in finished
        invariant forall k :: 0 <= k < i ==> neighbors[k].0 in finished
      {
        var (next, span) := neighbors[i];
        NeighborEdge(node, i);
        if next in onPath {
          var cycle := CloseCycle(next, span);
          return Some((cycle, span));
        }
        if next !in visited {
          var inner := Dfs(next);
          if inner.Some? {
            return inner;
          }
        }
      }
      assert forall e :: e in edges && e.longer == node ==> e.shorter in finished by {
        NeighborsCoverEdges(node, neighbors);
      }
      Leave(node);
      assert path == before;
      return None;
    }

    /** Some walk from `start` meets a name twice. */
    ghost predicate RevisitingWalk(start: Name)
      reads this
    {
      exists w :: IsWalk(edges, w) && w[0] == start && !NoRepeats(w)
    }

    lemma Unvisited(node: Name)
      requires Valid() && node !in visited
      ensures node !in onPath
    {
    }

    lemma NeighborEdge(node: Name, i: nat)
      requires Valid() && node in adj && i < |adj[node]| && |path| > 0 && path[|path| - 1] == node
      ensures var next := adj[node][i].0;
              Edge(node, next, adj[node][i].1) in edges && next in nodes && IsWalk(edges, path + [next])
      ensures adj[node][i].0 in visited && adj[node][i].0 !in onPath ==> adj[node][i].0 in finished
    {
      hide IsWalk, NoRepeats, Descending;
      ExtendWalk(edges, path, adj[node][i].0, adj[node][i].1);
    }

    lemma NeighborsCoverEdges(node: Name, neighbors: seq<(Name, Span)>)
      requires Valid()
      requires neighbors == if node in adj then adj[node] else []
      requires forall k :: 0 <= k < |neighbors| ==> neighbors[k].0 in finished
      ensures forall e :: e in edges && e.longer == node ==> e.shorter in finished
    {
      forall e | e in edges && e.longer == node
        ensures e.shorter in finished
      {
        var k :| 0 <= k < |neighbors| && neighbors[k] == (e.shorter, e.span);
      }
    }
  }

  lemma ExtendWalk(edges: seq<Edge>, path: seq<Name>, next: Name, span: Span)
    requires IsWalk(edges, path) && Edge(path[|path| - 1], next, span) in edges
    ensures IsWalk(edges, path + [next])
  {
    var longer := path + [next];
    forall i | 0 <= i < |longer| - 1
      ensures HasEdge(edges, longer[i], longer[i + 1])
    {
      if i < |path| - 1 {
        assert HasEdge(edges, path[i], path[i + 1]);
      }
    }
  }

  lemma CycleFromPath(edges: seq<Edge>, path: seq<Name>, start: nat, span: Span)
    requires IsWalk(edges, path) && NoRepeats(path)
    requires start < |path| && Edge(path[|path| - 1], path[start], span) in edges
    ensures IsCycle(edges, path[start..], span)
  {
    var cycle := path[start..];
    forall i | 0 <= i < |cycle| - 1
      ensures HasEdge(edges, cycle[i], cycle[i + 1])
    {
      assert HasEdge(edges, path[start + i], path[start + i + 1]);
    }
  }

  lemma PopFinished(edges: seq<Edge>, finished: seq<Name>, node: Name)
    requires Descending(edges, finished) && NoRepeats(finished) && node !in finished
    requires forall e :: e in edges && e.longer == node ==> e.shorter in finished
    ensures Descending(edges, finished + [node]) && NoRepeats(finished + [node])
  {
    var order := finished + [node];
    forall e, i | e in edges && 0 <= i < |order| && order[i] == e.longer
      ensures e.shorter in order[..i]
    {
      if i < |finished| {
        assert order[..i] == finished[..i];
      } else {
        assert order[..i] == finished;
      }
    }
  }

  /** Index of the first occurrence, like `iter().position(..).unwrap()`. */
  method Position(path: seq<Name>, n: Name) returns (k: nat)
    requires n in path
    ensures k < |path| && path[k] == n && n !in path[..k]
  {
    k := 0;
    while path[k] != n
      invariant k < |path| && n !in path[..k]
      decreases |path| - k
    {
      assert path[..k + 1] == path[..k] + [path[k]];
      k := k + 1;
    }
  }

  /** `find_outlives_cycle`: the names are tried in an arbitrary order, as a hash set yields them. */
  method FindOutlivesCycle(names: set<Name>, edges: seq<Edge>) returns (found: Option<(seq<Name>, Span)>)
    ensures found.None? <==> LoopFreeFrom(names, edges)
    ensures found.Some? ==> IsCycle(edges, found.value.0, found.value.1)
  {
    var adj := BuildAdjacency(edges);
    var search := new CycleSearch(adj, names, edges);
    var rest := names;
    while rest != {}
      invariant fresh(search) && search.Valid() && search.path == [] && search.onPath == {}
      invariant search.edges == edges && names <= search.nodes
      invariant rest <= names
      invariant forall n :: n in names && n !in rest ==> n in search.finished
      decreases rest
    {
      var start :| start in rest;
      if start !in search.visited {
        found := search.Dfs(start);
        if found.Some? {
          return;
        }
      }
      rest := rest - {start};
    }
    forall w | IsWalk(edges, w) && w[0] in names
      ensures NoRepeats(w)
    {
      DescendingNoRepeats(edges, search.finished, w);
    }
    return None;
  }

  // ---------------------------------------------------------------- the declaration check

  function FirstSpan(params: seq<LifetimeParam>, n: Name): (s: Option<Span>)
    ensures s.Some? <==> exists p :: p in params && p.name == n
  {
    if params == [] then None
    else if params[0].name == n then Some(params[0].span)
    else FirstSpan(params[1..], n)
  }

  function DuplicateErrors(params: seq<LifetimeParam>): seq<LifetimeError> {
    if params == [] then []
    else
      var init, p := params[..|params| - 1], params[|params| - 1];
      var first := FirstSpan(init, p.name);
      DuplicateErrors(init) +
      if first.Some? then [DuplicateLifetimeParam(p.name, first.value, p.span)] else []
  }

  function DeclaredNames(params: seq<LifetimeParam>): set<Name> {
    set p | p in params :: p.name
  }

  /** The names a constraint mentions, in the order they are checked; `L outlives L` is checked once. */
  function Mentioned(c: Edge): seq<Name> {
    if c.shorter != c.longer then [c.longer, c.shorter] else [c.longer]
  }

  function UndeclaredIn(names: seq<Name>, span: Span, declared: set<Name>): seq<LifetimeError> {
    if names == [] then []
    else
      (if names[0] in declared then [] else [UndeclaredLifetime(names[0], span)]) +
      UndeclaredIn(names[1..], span, declared)
  }

  function UndeclaredOf(p: LifetimeParam, declared: set<Name>): seq<LifetimeError> {
    match p.constraint
    case None => []
    case Some(c) => UndeclaredIn(Mentioned(c), c.span, declared)
  }

  function UndeclaredErrors(params: seq<LifetimeParam>, declared: set<Name>): seq<LifetimeError> {
    if params == [] then []
    else UndeclaredErrors(params[..|params| - 1], declared) + UndeclaredOf(params[|params| - 1], declared)
  }

  function EdgeOf(p: LifetimeParam, declared: set<Name>): seq<Edge> {
    match p.constraint
    case Some(c) => if c.longer in declared && c.shorter in declared then [c] else []
    case None => []
  }

  function DeclaredEdges(params: seq<LifetimeParam>, declared: set<Name>): seq<Edge> {
    if params == [] then []
    else DeclaredEdges(params[..|params| - 1], declared) + EdgeOf(params[|params| - 1], declared)
  }

  // ---------------------------------------------------------------- which errors are reported

  /** The two lists of errors about names: declarations that repeat a name, and constraints that mention an undeclared one. */
  datatype Fault = Repeat | Undeclared

  /** Place `q` of the declaration: for repeats the parameter at `q`, for undeclared names the longer and then the shorter
      side of the constraint of each parameter. */
  ghost predicate Faulty(params: seq<LifetimeParam>, fault: Fault, q: nat) {
    match fault
    case Repeat => q < |params| && exists j :: 0 <= j < q && params[j].name == params[q].name
    case Undeclared =>
      && q / 2 < |params| && params[q / 2].constraint.Some?
      && var c := params[q / 2].constraint.value;
         && (q % 2 == 1 ==> c.shorter != c.longer)
         && forall j :: 0 <= j < |params| ==> params[j].name != if q % 2 == 0 then c.longer else c.shorter
  }

  /** What the error says about that place: a repeat names the span of the first parameter of that name. */
  ghost predicate Tells(params: seq<LifetimeParam>, fault: Fault, q: nat, e: LifetimeError)
    requires Faulty(params, fault, q)
  {
    match fault
    case Repeat =>
      && e.DuplicateLifetimeParam? && e.name == params[q].name && e.dupSpan == params[q].span
      && exists j :: 0 <= j < q && params[j].name == e.name && params[j].span == e.firstSpan &&
                     forall i :: 0 <= i < j ==> params[i].name != e.name
    case Undeclared =>
      var c := params[q / 2].constraint.value;
      e == UndeclaredLifetime(if q % 2 == 0 then c.longer else c.shorter, c.span)
  }

  /** The errors are one for each faulty place before `n`, in order. */
  ghost predicate Lists(params: seq<LifetimeParam>, fault: Fault, n: nat, errors: seq<LifetimeError>, places: seq<nat>) {
    && |places| == |errors|
    && (forall k :: 0 <= k < |places| ==> places[k] < n && Faulty(params, fault, places[k]) && Tells(params, fault, places[k], errors[k]))
    && (forall k, m :: 0 <= k < m < |places| ==> places[k] < places[m])
    && forall q: nat :: q < n && Faulty(params, fault, q) ==> q in places
  }

  ghost predicate ReportsExactly(params: seq<LifetimeParam>, fault: Fault, errors: seq<LifetimeError>) {
    exists places :: Lists(params, fault, 2 * |params|, errors, places)
  }

  lemma NextPlace(params: seq<LifetimeParam>, fault: Fault, n: nat, errors: seq<LifetimeError>, places: seq<nat>, more: seq<LifetimeError>)
    returns (places': seq<nat>)
    requires Lists(params, fault, n, errors, places)
    requires if Faulty(params, fault, n) then |more| == 1 && Tells(params, fault, n, more[0]) else more == []
    ensures Lists(params, fault, n + 1, errors + more, places')
  {
    hide Faulty, Tells;
    places' := if Faulty(params, fault, n) then places + [n] else places;
    forall q: nat | q < n + 1 && Faulty(params, fault, q)
      ensures q in places'
    {
      if q < n {
        assert q in places;
      }
    }
  }

  lemma {:induction false} RepeatsListed(params: seq<LifetimeParam>, n: nat) returns (places: seq<nat>)
    requires n <= |params|
    ensures Lists(params, Repeat, n, DuplicateErrors(params[..n]), places)
  {
    if n == 0 {
      places := [];
    } else {
      var init := params[..n - 1];
      places := RepeatsListed(params, n - 1);
      assert params[..n][..n - 1] == init;
      FirstSpanIs(params, n - 1, params[n - 1].name);
      var more := if FirstSpan(init, params[n - 1].name).Some?
        then [DuplicateLifetimeParam(params[n - 1].name, FirstSpan(init, params[n - 1].name).value, params[n - 1].span)] else [];
      places := NextPlace(params, Repeat, n - 1, DuplicateErrors(init), places, more);
    }
  }

  /** The span that is remembered for a name is that of its first parameter. */
  lemma {:induction false} FirstSpanIs(params: seq<LifetimeParam>, n: nat, name: Name)
    requires n <= |params|
    ensures var first := FirstSpan(params[..n], name);
            if first.None? then forall j :: 0 <= j < n ==> params[j].name != name
            else exists j :: 0 <= j < n && params[j].name == name && params[j].span == first.value &&
                             forall i :: 0 <= i < j ==> params[i].name != name
  {
    if n > 0 {
      FirstSpanIs(params, n - 1, name);
      assert params[..n] == params[..n - 1] + [params[n - 1]];
      FirstSpanAppend(params[..n - 1], params[n - 1], name);
    }
  }

  lemma {:induction false} UndeclaredListed(params: seq<LifetimeParam>, n: nat) returns (places: seq<nat>)
    requires n <= |params|
    ensures Lists(params, Undeclared, 2 * n, UndeclaredErrors(params[..n], DeclaredNames(params)), places)
  {
    hide Lists, Faulty, Tells, DeclaredNames, UndeclaredErrors, UndeclaredOf;
    if n == 0 {
      places := [];
      NonePlaced(params);
    } else {
      places := UndeclaredListed(params, n - 1);
      var before := UndeclaredErrors(params[..n - 1], DeclaredNames(params));
      var longer, shorter := SidesTold(params, n - 1);
      assert 2 * (n - 1) + 1 + 1 == 2 * n;
      places := NextPlace(params, Undeclared, 2 * (n - 1), before, places, longer);
      places := NextPlace(params, Undeclared, 2 * (n - 1) + 1, before + longer, places, shorter);
      UndeclaredNext(params, n, DeclaredNames(params));
      assert before + (longer + shorter) == before + longer + shorter;
    }
  }

  lemma NonePlaced(params: seq<LifetimeParam>)
    ensures Lists(params, Undeclared, 0, UndeclaredErrors(params[..0], DeclaredNames(params)), [])
  {
    hide Faulty, Tells;
  }

  lemma UndeclaredNext(params: seq<LifetimeParam>, n: nat, declared: set<Name>)
    requires 0 < n <= |params|
    ensures UndeclaredErrors(params[..n], declared) == UndeclaredErrors(params[..n - 1], declared) + UndeclaredOf(params[n - 1], declared)
  {
    hide UndeclaredOf;
    assert params[..n][..n - 1] == params[..n - 1];
  }

  /** The errors of one constraint, side by side. */
  lemma SidesTold(params: seq<LifetimeParam>, i: nat) returns (longer: seq<LifetimeError>, shorter: seq<LifetimeError>)
    requires i < |params|
    ensures UndeclaredOf(params[i], DeclaredNames(params)) == longer + shorter
    ensures if Faulty(params, Undeclared, 2 * i) then |longer| == 1 && Tells(params, Undeclared, 2 * i, longer[0]) else longer == []
    ensures if Faulty(params, Undeclared, 2 * i + 1) then |shorter| == 1 && Tells(params, Undeclared, 2 * i + 1, shorter[0]) else shorter == []
  {
    hide Faulty, Tells, DeclaredNames, UndeclaredOf;
    longer, shorter := [], [];
    if params[i].constraint.Some? {
      var c, declared := params[i].constraint.value, DeclaredNames(params);
      longer := if c.longer in declared then [] else [UndeclaredLifetime(c.longer, c.span)];
      shorter := if c.shorter == c.longer || c.shorter in declared then [] else [UndeclaredLifetime(c.shorter, c.span)];
    }
    SideFaulty(params, i, 2 * i);
    SideFaulty(params, i, 2 * i + 1);
    SidesOf(params[i], DeclaredNames(params));
  }

  /** A place of a constraint is faulty exactly if its side is not declared. */
  lemma SideFaulty(params: seq<LifetimeParam>, i: nat, q: nat)
    requires i < |params| && 2 * i <= q <= 2 * i + 1
    ensures params[i].constraint.None? ==> !Faulty(params, Undeclared, q)
    ensures params[i].constraint.Some? ==>
              var c := params[i].constraint.value;
              var n := if q == 2 * i then c.longer else c.shorter;
              && (Faulty(params, Undeclared, q) <==> n !in DeclaredNames(params) && (q == 2 * i || c.shorter != c.longer))
              && (Faulty(params, Undeclared, q) ==> Tells(params, Undeclared, q, UndeclaredLifetime(n, c.span)))
  {
    assert q / 2 == i && (q % 2 == 0 <==> q == 2 * i);
    if params[i].constraint.Some? {
      var c := params[i].constraint.value;
      IsDeclared(params, if q == 2 * i then c.longer else c.shorter);
      hide DeclaredNames;
    }
  }

  lemma SidesOf(p: LifetimeParam, declared: set<Name>)
    ensures match p.constraint
            case None => UndeclaredOf(p, declared) == []
            case Some(c) =>
              UndeclaredOf(p, declared) ==
              (if c.longer in declared then [] else [UndeclaredLifetime(c.longer, c.span)]) +
              (if c.shorter == c.longer || c.shorter in declared then [] else [UndeclaredLifetime(c.shorter, c.span)])
  {
    if p.constraint.Some? {
      var c := p.constraint.value;
      assert Mentioned(c)[1..] == if c.shorter == c.longer then [] else [c.shorter];
      assert [c.shorter][1..] == [];
      assert UndeclaredIn([c.shorter], c.span, declared) == if c.shorter in declared then [] else [UndeclaredLifetime(c.shorter, c.span)];
    }
  }

  lemma IsDeclared(params: seq<LifetimeParam>, n: Name)
    ensures n in DeclaredNames(params) <==> exists j :: 0 <= j < |params| && params[j].name == n
  {
  }

  /** Both lists, for every declaration: an error for each fault, in the order of the parameters, and no other. */
  lemma ErrorsAreFaults(params: seq<LifetimeParam>)
    ensures ReportsExactly(params, Repeat, DuplicateErrors(params))
    ensures ReportsExactly(params, Undeclared, UndeclaredErrors(params, DeclaredNames(params)))
  {
    assert params[..|params|] == params;
    var repeats := RepeatsListed(params, |params|);
    var undeclared := UndeclaredListed(params, |params|);
    assert Lists(params, Repeat, 2 * |params|, DuplicateErrors(params), repeats);
  }

  /** The edges of the cycle check are the constraints between declared names. */
  lemma {:induction false} DeclaredEdgesExact(params: seq<LifetimeParam>, declared: set<Name>)
    ensures forall e :: e in DeclaredEdges(params, declared) <==>
              e.longer in declared && e.shorter in declared &&
              exists p :: p in params && p.constraint == Some(e)
  {
    if params != [] {
      var init, p := params[..|params| - 1], params[|params| - 1];
      assert params == init + [p];
      DeclaredEdgesExact(init, declared);
    }
  }

  /** The outcome of the cycle check: at most one error, raised exactly for a cyclic declaration. */
  ghost predicate CycleErrors(edges: seq<Edge>, raised: seq<LifetimeError>) {
    if Acyclic(edges) then raised == []
    else |raised| == 1 && raised[0].OutlivesCycle? && IsCycle(edges, raised[0].names, raised[0].span)
  }

  /** `firstSeen` maps the declared names to the spans of their first declarations. */
  ghost predicate RecordsFirst(firstSeen: map<Name, Span>, params: seq<LifetimeParam>) {
    && firstSeen.Keys == DeclaredNames(params)
    && forall n :: n in firstSeen ==> FirstSpan(params, n) == Some(firstSeen[n])
  }

  lemma RecordsFirstStep(firstSeen: map<Name, Span>, params: seq<LifetimeParam>, p: LifetimeParam)
    requires RecordsFirst(firstSeen, params)
    ensures RecordsFirst(if p.name in firstSeen then firstSeen else firstSeen[p.name := p.span], params + [p])
    ensures DuplicateErrors(params + [p]) == DuplicateErrors(params) +
            if p.name in firstSeen then [DuplicateLifetimeParam(p.name, firstSeen[p.name], p.span)] else []
  {
    assert (params + [p])[..|params|] == params;
    var next := if p.name in firstSeen then firstSeen else firstSeen[p.name := p.span];
    forall n | n in next
      ensures FirstSpan(params + [p], n) == Some(next[n])
    {
      FirstSpanAppend(params, p, n);
    }
  }

  /** Reports the repeated names and returns the set of declared ones. */
  method CollectNames(params: seq<LifetimeParam>, errors: ErrorManager) returns (declared: set<Name>)
    modifies errors
    ensures declared == DeclaredNames(params)
    ensures errors.errors == old(errors.errors) + DuplicateErrors(params)
  {
    var firstSeen: map<Name, Span> := map[];
    ghost var raised: seq<LifetimeError> := [];
    for i := 0 to |params|
      invariant errors.errors == old(errors.errors) + raised
      invariant raised == DuplicateErrors(params[..i])
      invariant RecordsFirst(firstSeen, params[..i])
    {
      hide RecordsFirst, DuplicateErrors;
      var p := params[i];
      assert params[..i + 1] == params[..i] + [p];
      RecordsFirstStep(firstSeen, params[..i], p);
      if p.name in firstSeen {
        var e := DuplicateLifetimeParam(p.name, firstSeen[p.name], p.span);
        errors.AddLifetimeError(e);
        raised := raised + [e];
      } else {
        firstSeen := firstSeen[p.name := p.span];
      }
    }
    assert params[..|params|] == params;
    return firstSeen.Keys;
  }

  method CheckDeclarationWellFormed(params: seq<LifetimeParam>, errors: ErrorManager)
    returns (declared: set<Name>)
    modifies errors
    ensures declared == DeclaredNames(params)
    ensures exists raised ::
              && errors.errors == old(errors.errors) + DuplicateErrors(params) +
                                  UndeclaredErrors(params, declared) + raised
              && CycleErrors(DeclaredEdges(params, declared), raised)
    ensures ReportsExactly(params, Repeat, DuplicateErrors(params)) && ReportsExactly(params, Undeclared, UndeclaredErrors(params, declared))
  {
    ErrorsAreFaults(params);
    hide ReportsExactly;
    declared := CollectNames(params, errors);
    var edges := CollectEdges(params, declared, errors);
    var cycle := FindOutlivesCycle(declared, edges);
    DeclaredEdgesExact(params, declared);
    LoopFreeIsAcyclic(declared, edges);
    ghost var raised := [];
    if cycle.Some? {
      errors.AddLifetimeError(OutlivesCycle(cycle.value.0, cycle.value.1));
      raised := [OutlivesCycle(cycle.value.0, cycle.value.1)];
    }
    assert CycleErrors(edges, raised);
  }

  lemma {:induction false} FirstSpanAppend(params: seq<LifetimeParam>, p: LifetimeParam, n: Name)
    ensures FirstSpan(params + [p], n) ==
            if FirstSpan(params, n).Some? then FirstSpan(params, n)
            else if p.name == n then Some(p.span) else None
  {
    if params == [] {
    } else {
      assert (params + [p])[1..] == params[1..] + [p];
      FirstSpanAppend(params[1..], p, n);
    }
  }

  /** Reports the undeclared names of one constraint, and keeps it if there are none. */
  method CheckConstraint(p: LifetimeParam, declared: set<Name>, errors: ErrorManager)
    returns (kept: seq<Edge>)
    modifies errors
    ensures kept == EdgeOf(p, declared)
    ensures errors.errors == old(errors.errors) + UndeclaredOf(p, declared)
  {
    if p.constraint.None? {
      return [];
    }
    var c := p.constraint.value;
    ReportUndeclared(Mentioned(c), c.span, declared, errors);
    return if c.longer in declared && c.shorter in declared then [c] else [];
  }

  lemma StepErrors(params: seq<LifetimeParam>, i: nat, declared: set<Name>, before: seq<LifetimeError>)
    requires i < |params|
    ensures DeclaredEdges(params[..i + 1], declared) ==
            DeclaredEdges(params[..i], declared) + EdgeOf(params[i], declared)
    ensures before + UndeclaredErrors(params[..i + 1], declared) ==
            before + UndeclaredErrors(params[..i], declared) + UndeclaredOf(params[i], declared)
  {
    assert params[..i + 1][..i] == params[..i];
  }

  method CollectEdges(params: seq<LifetimeParam>, declared: set<Name>, errors: ErrorManager)
    returns (edges: seq<Edge>)
    modifies errors
    ensures edges == DeclaredEdges(params, declared)
    ensures errors.errors == old(errors.errors) + UndeclaredErrors(params, declared)
  {
    edges := [];
    for i := 0 to |params|
      invariant edges == DeclaredEdges(params[..i], declared)
      invariant errors.errors == old(errors.errors) + UndeclaredErrors(params[..i], declared)
    {
      StepErrors(params, i, declared, old(errors.errors));
      var kept := CheckConstraint(params[i], declared, errors);
      edges := edges + kept;
    }
    assert params[..|params|] == params;
  }

  method ReportUndeclared(names: seq<Name>, span: Span, declared: set<Name>, errors: ErrorManager)
    modifies errors
    ensures errors.errors == old(errors.errors) + UndeclaredIn(names, span, declared)
  {
    for i := 0 to |names|
      invariant errors.errors + UndeclaredIn(names[i..], span, declared) ==
                old(errors.errors) + UndeclaredIn(names, span, declared)
    {
      if names[i] !in declared {
        errors.AddLifetimeError(UndeclaredLifetime(names[i], span));
      }
    }
  }

  /** No error is raised exactly for a declaration whose names are distinct, whose constraints
      mention declared names only, and whose constraints are acyclic. */
  lemma NoErrorsIffWellFormed(params: seq<LifetimeParam>, raised: seq<LifetimeError>)
    requires CycleErrors(DeclaredEdges(params, DeclaredNames(params)), raised)
    ensures DuplicateErrors(params) + UndeclaredErrors(params, DeclaredNames(params)) + raised == [] <==>
            && (forall i, j :: 0 <= i < j < |params| ==> params[i].name != params[j].name)
            && (forall p :: p in params && p.constraint.Some? ==>
                  {p.constraint.value.longer, p.constraint.value.shorter} <= DeclaredNames(params))
            && Acyclic(DeclaredEdges(params, DeclaredNames(params)))
  {
    NoDuplicateErrors(params);
    NoUndeclaredErrors(params, DeclaredNames(params));
  }

  lemma {:induction false} NoDuplicateErrors(params: seq<LifetimeParam>)
    ensures DuplicateErrors(params) == [] <==>
            forall i, j :: 0 <= i < j < |params| ==> params[i].name != params[j].name
  {
    if params == [] {
    } else {
      var init, p := params[..|params| - 1], params[|params| - 1];
      NoDuplicateErrors(init);
      assert forall i :: 0 <= i < |init| ==> params[i] == init[i];
      if FirstSpan(init, p.name).Some? {
        var q :| q in init && q.name == p.name;
        var i :| 0 <= i < |init| && init[i] == q;
        assert params[i].name == params[|params| - 1].name;
      }
    }
  }

  lemma {:induction false} NoUndeclaredErrors(params: seq<LifetimeParam>, declared: set<Name>)
    ensures UndeclaredErrors(params, declared) == [] <==>
            forall p :: p in params && p.constraint.Some? ==>
              {p.constraint.value.longer, p.constraint.value.shorter} <= declared
  {
    if params == [] {
    } else {
      hide Mentioned, UndeclaredIn;
      var init, p := params[..|params| - 1], params[|params| - 1];
      assert params == init + [p];
      NoUndeclaredErrors(init, declared);
      if p.constraint.Some? {
        MentionedDeclared(p.constraint.value, declared);
      }
    }
  }

  lemma MentionedDeclared(c: Edge, declared: set<Name>)
    ensures UndeclaredIn(Mentioned(c), c.span, declared) == [] <==> {c.longer, c.shorter} <= declared
  {
    UndeclaredInEmpty(Mentioned(c), c.span, declared);
    assert c.longer == Mentioned(c)[0];
    assert c.shorter == Mentioned(c)[|Mentioned(c)| - 1];
  }

  lemma {:induction false} UndeclaredInEmpty(names: seq<Name>, span: Span, declared: set<Name>)
    ensures UndeclaredIn(names, span, declared) == [] <==> forall n :: n in names ==> n in declared
  {
    if names != [] {
      UndeclaredInEmpty(names[1..], span, declared);
    }
  }
}
